# Editor-to-player mask pipeline, in Dafny

This project models the two small pieces of logic that move polygons from
the shape editor (`shape_editor.py`) to the video mask player (`main.py`)
and proves properties of that model.

- **Editor side.** A `Shape` is a vertex list with a closed flag and a colour. It can be
  closed only with more than two vertices. A `Canvas` holds the shape list and
  `current_shape`, the shape being drawn. `current_shape` is modelled as a
  reference: nothing, a position in the list, or a detached object left
  behind when loading fails half-way. Left and right clicks, "close",
  "delete last" and "clear" change this state. Saving divides pixel
  coordinates by the canvas size. Loading multiplies and truncates them.
  Resizing rescales them by truncation. "Send" builds the payload of closed
  shapes, divides their points by the canvas size, and clears the canvas only
  after a successful send.
- **Player side.** An incoming shape list replaces the active masks
  wholesale. Only records whose `is_closed` is truthy are kept. Points are
  multiplied by the frame size and truncated. Masking is switched on. The
  intake queue is a FIFO, and the render loop takes at most one item per frame.
  The compositor keeps pixels inside the union of the mask polygons and
  blacks out the rest. When masking is off or there are no masks, it is bypassed.
- **Server.** The accept loop accumulates chunks until the peer closes,
  decodes the bytes, and enqueues the decoded value.

Python semantics are spelled out where they matter:
- `int()` truncates toward zero (`Coordinates.Trunc`).
- `dict.get` with duplicate keys returns the last one (`PyJson.Get`).
- Iterating a dict or a string (`PyJson.Iterate`) and truthiness (`PyJson.Truthy`) follow Python.
- `bool` counts as a number.
- `QColor` refuses floats, and `QPoint` refuses coordinates outside the 32-bit range.
- An exception escaping an operation is `None` (or a dedicated outcome).

Python floats are exact reals. Two things are parameters:
- polygon rasterization, as `inside(polygon, x, y)`;
- UTF-8 plus JSON decoding, as `decode(bytes)`.

Two behaviours of the code differ from what its overall design suggests,
and the model follows the code:

- The render loop does not drain the intake queue. `check_for_new_masks`
  takes one item per call (main.py:72-79), and so does
  `PlayerMasks.CheckForNewMasks`. `PlayerMasks.DrainKeepsLast` shows that
  a backlog of `n` updates is consumed over `n` frames, ending in the state
  the last update alone produces.
- A malformed update is not discarded when it arrives. The server enqueues
  any well-formed JSON, and `set_mask_from_editor` (main.py:54-70) raises
  on it later, inside the render loop, where nothing catches the exception
  and so the player ends. It raises on:
  - a record that is not a dict: `AttributeError` from `.get`;
  - a record whose `is_closed` is truthy and which has no `points` key: `KeyError`;
  - such a record whose points are not iterable, or with a point that is
    not iterable (a bare number): `TypeError`;
  - such a record with a point that is iterable but does not have exactly
    two items: `ValueError`;
  - such a record with a coordinate that is `null`, a list or a dict:
    `TypeError`. A string coordinate is repeated by `* width` and then
    parsed by `int()`, which raises `ValueError` or, for digits such as
    `"0"`, succeeds; the model treats every string coordinate as raising
    (see the `PlayerMasks.MaskPoint` line under "Left out").

  A record whose `is_closed` is falsy is skipped before its points are read
  (main.py:58). `PlayerMasks.SetMaskFromEditor` returns `None` exactly when
  its input is not `Applicable`.

Modules: `Outcome`, `PyJson`, `Coordinates`, `Decimal`, `EditorShape`,
`EditorCanvas`, `EditorWindow`, `PlayerMasks`, `Compositor`, `RenderLoop`,
`MaskServer`, `Pipeline`.

## Model

| member | source | states |
|---|---|---|
| PyJson.Get | main.py:58 | `dict.get` on a decoded object: `None` iff the key is absent; otherwise the value of the last occurrence of the key |
| PyJson.Keys | main.py:57 | the keys of the dict `json.loads` builds: every field's key occurs, nothing else does, and none occurs twice |
| PyJson.Iterate | main.py:57 | `for x in value`: lists give their items, dicts their distinct keys, strings their one-character strings in order; other values raise; the sequence is empty iff the value is falsy |
| PyJson.AsNumber | main.py:61 | operands usable in `x * width`: ints and floats with their value, `True` as 1 and `False` as 0; anything else raises |
| PyJson.AsInt | shape_editor.py:130-135 | an argument `QColor` accepts: an int with its value, `True` as 1 and `False` as 0; a float or any other value raises |
| Coordinates.Trunc | main.py:61 | `int(r)` is the integer next to `r` on the side of zero, and is non-negative for non-negative `r` |
| Coordinates.TruncUnique | main.py:61 | truncation has exactly one admissible result |
| Coordinates.Normalize | shape_editor.py:103 | the normalized coordinate times the canvas dimension is the pixel coordinate |
| Coordinates.Denormalize | shape_editor.py:125 | each coordinate is the truncation of the fraction times the dimension |
| Coordinates.Rescale | shape_editor.py:163-165 | a rescaled coordinate is `int(old / oldDim * newDim)` |
| Coordinates.NormalizeRoundTrip | shape_editor.py:103 | dividing by the canvas size and multiplying back at the same size returns the pixel |
| Coordinates.RescaleSameSize | shape_editor.py:155-166 | rescaling to the size the canvas already has moves no point |
| Coordinates.PixelRoundTrip | main.py:61 | the pixel polygon derived from normalized points is reproduced when normalized and derived again at the same size |
| Coordinates.DenormalizeWithin | main.py:61 | a fraction of the frame between 0 and 1 lands on a pixel inside the frame, edges included |
| Coordinates.RescaleWithin | shape_editor.py:155-166 | a point inside the old canvas lands inside the new canvas, edges included |
| Decimal.ValueOfDigits | main.py:66 | the decimal digits written by an f-string read back as the number |
| Decimal.DigitsInjective | main.py:66 | different numbers are written differently |
| EditorShape.AddPoint | shape_editor.py:32-34 | the vertex is appended at the end; flag and colour are unchanged |
| EditorShape.Close | shape_editor.py:36-41 | sets `is_closed` and returns true iff there are more than two vertices; otherwise the shape is unchanged and it returns false |
| EditorShape.CloseIdempotent | shape_editor.py:36-41 | closing a closed shape again changes nothing |
| EditorShape.RecordFields | shape_editor.py:52-61 | the `points`, `is_closed` and `color` of a record are found under their names |
| EditorShape.ColorFields | shape_editor.py:55-60 | the four channels of a colour object are found under their names |
| EditorShape.NormalizedPointsJson | shape_editor.py:103 | one pair per vertex, in order, each the vertex divided by width and height |
| EditorShape.ToDict | shape_editor.py:50-61 | the record holds the pixel points, the closed flag and the four colour channels |
| EditorCanvas.NewCanvas | shape_editor.py:64-71 | a new canvas has no shapes and nothing being drawn, and records its own size as the last size |
| EditorCanvas.ShapeToDict | shape_editor.py:95-111 | with a zero dimension: no points and an empty colour, `is_closed` kept; otherwise points divided by width and height, in order, and the colour channels |
| EditorCanvas.CountClosed | shape_editor.py:79 | the count of closed shapes is zero iff no shape is closed |
| EditorCanvas.ShapesJson | shape_editor.py:76 | one record per shape, open ones included, in list order |
| EditorCanvas.SaveDocument | shape_editor.py:75-85 | the saved document's `shapes` is one `shape_to_dict` record per shape, in order |
| EditorCanvas.LoadPoint | shape_editor.py:125 | a point loads iff it can be indexed twice, both entries are numbers, and `int(p[0]*width)` and `int(p[1]*height)` both fit the 32-bit range of a `QPoint`; it becomes that pair |
| EditorCanvas.Channel | shape_editor.py:131-134 | a missing channel defaults to 255; an integer channel is taken as is and a bool as 0 or 1; any other channel value raises |
| EditorCanvas.LoadColor | shape_editor.py:128-135 | a falsy colour value keeps the shape's own colour; a truthy non-object raises |
| EditorCanvas.LoadPoints | shape_editor.py:124-125 | the vertex list loads iff every point loads, and each vertex is the loaded point at the same position |
| EditorCanvas.LoadRecord | shape_editor.py:122-136 | a loaded shape has the loaded points; it is closed iff `is_closed` is truthy and it has more than two vertices; it takes the loaded colour; it raises iff the record is not an object, lacks `points`, or a point or the colour fails |
| EditorCanvas.LoadShapes | shape_editor.py:113-145 | the list is replaced; success iff every record loads, in which case there is one shape per record and nothing is being drawn; on failure loading stopped at the first record that raises, the shapes loaded before it stay, and `current_shape` keeps referring to the old object; the size is untouched |
| EditorCanvas.PointsRoundTrip | shape_editor.py:124-125 | vertices that fit a `QPoint`, divided by the canvas size as `shape_to_dict` writes them, load back into the vertices they came from |
| EditorCanvas.ColorRoundTrip | shape_editor.py:128-135 | a written colour object loads back into the same colour |
| EditorCanvas.RecordRoundTrip | shape_editor.py:122-136 | a saved record of a proper shape whose vertices fit a `QPoint` loads back, at the same size, into the same shape |
| EditorCanvas.SavedRecordsLoad | shape_editor.py:119-136 | the saved document's records are what loading iterates over, and each loads back into the shape it was written from, when every vertex fits a `QPoint` as the editor's own vertices do |
| EditorCanvas.SaveLoadRoundTrip | shape_editor.py:73-145 | a document saved from a canvas of positive size, whose vertices fit a `QPoint`, loads back into exactly the saved shapes, with nothing being drawn |
| EditorCanvas.RescaleShape | shape_editor.py:160-166 | the number of vertices, the flag and the colour are kept; each vertex is rescaled |
| EditorCanvas.RescaleShapes | shape_editor.py:155-167 | the number of shapes and of points per shape are kept; each coordinate is `int(old/oldDim*newDim)`; with a zero old dimension it raises iff some vertex exists, otherwise iff some rescaled vertex does not fit a `QPoint`; shapes whose vertices fit keep fitting |
| EditorCanvas.RescaleToSameSize | shape_editor.py:155-167 | rescaling from the present size changes nothing |
| EditorCanvas.Resize | shape_editor.py:147-153 | the new size is taken and recorded; with shapes and a positive recorded size the shapes are rescaled from the old size to the new one, and the resize raises exactly when that rescale does; otherwise the shapes are left as they are; shape count, `current_shape` and well-formedness are kept |
| EditorCanvas.MousePress | shape_editor.py:170-189 | left with no current shape appends a new shape that receives the point and becomes current, and records the present size when none was recorded; left while drawing a listed shape appends the point to that shape only; left while drawing a shape no longer in the list appends the point to that shape and leaves the list alone; right always ends with no current shape, removing an open shape with fewer than 3 vertices and closing it otherwise; other buttons change nothing; the size is never changed |
| EditorCanvas.CloseCurrent | shape_editor.py:223-230 | succeeds iff the current shape is open with more than two vertices, closing it in place and ending drawing; otherwise nothing changes; the size is untouched |
| EditorCanvas.ClearAll | shape_editor.py:232-236 | no shapes and nothing being drawn; size untouched |
| EditorCanvas.DeleteLast | shape_editor.py:238-246 | a non-empty list loses only its last shape; `current_shape` is cleared iff it was that shape; an empty list is left alone |
| EditorCanvas.ShapesAsArrays | shape_editor.py:248-255 | exactly the closed shapes with more than two vertices, in list order, each tagged with its list position |
| EditorWindow.StartNewShape | shape_editor.py:307-310 | drawing ends whether or not the close succeeds; an open listed shape with more than two vertices is closed in place; a closed listed shape, an open one with too few vertices, and a shape no longer listed leave the list as it was; vertices, colours and the size are kept |
| EditorWindow.ClosedShapes | shape_editor.py:314 | the closed shapes, as many as `CountClosed`, all closed, none missing |
| EditorWindow.ClosedShapesAppend | shape_editor.py:314 | filtering keeps relative order across a concatenation |
| EditorWindow.WithPoints | shape_editor.py:323 | dict item assignment sets `points` and leaves every other key's value unchanged |
| EditorWindow.DividedPoints | shape_editor.py:323 | the points divided by the canvas size; raises iff a dimension is zero and a point exists |
| EditorWindow.Payload | shape_editor.py:314-323 | one record per closed shape, each with its points divided; raises iff some division fails |
| EditorWindow.PayloadFails | shape_editor.py:322-323 | building the payload raises iff the canvas has a zero side and some closed shape has a vertex |
| EditorWindow.PayloadRecord | shape_editor.py:314-323 | a sent record is marked closed and carries the shape's colour and divided points |
| EditorWindow.PayloadRecords | shape_editor.py:314-323 | every record of the payload is marked closed and carries its shape's colour and divided points |
| EditorWindow.WithPointsOnRecord | shape_editor.py:323 | replacing the points of a record keeps its other fields and their order |
| EditorWindow.SendShapes | shape_editor.py:312-345 | nothing is sent iff no shape is closed; otherwise it crashes iff the canvas has a zero side and some closed shape has a vertex, and else it sends iff the connection and write succeed; the payload is the closed shapes, in order, with points divided by width and height; the canvas is cleared only after a successful send and is otherwise untouched |
| EditorWindow.SentRecordsAreSavedRecords | shape_editor.py:314-323 | on a canvas of non-zero size, each sent record is exactly the record `shape_to_dict` writes |
| PlayerMasks.InitialPlayer | main.py:13-23 | no masks, masking off, 1280x720 |
| PlayerMasks.MaskNameNumbersFromOne | main.py:66 | the mask name is `Editor_Shape_` followed by the record's 1-based position in decimal |
| PlayerMasks.MaskNamesDistinct | main.py:66 | records at different positions give different names |
| PlayerMasks.MaskPoint | main.py:61 | an element unpacks iff it is a pair of numbers, and becomes `int(x*width), int(y*height)` |
| PlayerMasks.MaskPoints | main.py:60-63 | the polygon converts iff every element does, position by position |
| PlayerMasks.MaskOf | main.py:64-68 | the mask has the converted polygon, the position-based name and the file tag `Editor` |
| PlayerMasks.MaskStep | main.py:57-68 | one iteration raises iff the record is not accepted, and keeps it iff `is_closed` is truthy |
| PlayerMasks.KeptIndices | main.py:57-58 | the positions of the records whose `is_closed` is truthy, strictly increasing, none missing |
| PlayerMasks.AllKeptIndices | main.py:57-58 | when every record is closed, every position is kept |
| PlayerMasks.SetMaskFromEditor | main.py:54-70 | raises iff some record is not accepted; otherwise the masks are replaced by exactly the kept records, in input order, each named after its input position; masking is on even with no masks |
| PlayerMasks.AllClosedBecomeMasks | main.py:54-70 | when every record is closed, the k-th mask comes from the k-th record |
| PlayerMasks.ReplacementForgetsPrevious | main.py:56 | the result does not depend on the previous masks or switch |
| PlayerMasks.CheckForNewMasks | main.py:72-79 | an empty queue changes nothing; otherwise exactly the front item is removed and applied |
| PlayerMasks.DrainKeepsLast | main.py:72-79 | a backlog of n applicable updates is consumed in n frames, FIFO, leaving the state the last update alone produces |
| PlayerMasks.ToggleMask | main.py:101-104 | flips `apply_mask` and leaves the masks untouched |
| PlayerMasks.ToggleTwice | main.py:101-104 | toggling twice restores the original state |
| Compositor.CoveredByIsUnion | main.py:96-98 | the pixels painted by the fill loop are the union of the polygons' interiors |
| Compositor.FillPoly | main.py:98 | painted pixels become 255; others keep their value |
| Compositor.CombinedMask | main.py:95-98 | the combined mask is 255 exactly on the union of the polygons and 0 elsewhere |
| Compositor.Black | main.py:99 | a blacked-out pixel has every channel zero and the same channel count |
| Compositor.AndUnder | main.py:99 | ANDing a frame with itself under a mask keeps the pixel where the mask is non-zero and zeroes it elsewhere |
| Compositor.ApplyAllMasks | main.py:92-99 | no masks or masking off: the frame is returned unchanged; otherwise a covered pixel keeps its value and any other pixel is zero in every channel; a frame of the wrong size raises |
| Compositor.CompositeIdempotent | main.py:92-99 | masking an already masked frame with the same polygons changes nothing |
| RenderLoop.RenderTick | main.py:138-153 | at most one queued update is taken per iteration, from the front; the loop ends exactly when applying that update raises or when compositing meets a frame of the wrong size; nothing is shown before a frame was read; the frame is composited exactly when masking is on and masks exist |
| MaskServer.Concat | main.py:39-44 | the joined payload is empty iff every chunk is |
| MaskServer.Receive | main.py:39-44 | reading ends iff some chunk is empty |
| MaskServer.ReceiveConcatenates | main.py:39-44 | the payload is the in-order concatenation of the chunks before the first empty one |
| MaskServer.StepAsWritten | main.py:36-52 | one connection as written: it waits iff the peer has not closed; nothing is received iff the payload is empty; the payload is dropped iff it raises `JSONDecodeError`; the thread dies iff the payload is not UTF-8 or decodes to a value without a length; a decoded value is enqueued exactly once, even when the thread then dies |
| MaskServer.Step | main.py:36-52 | one connection as intended: waits on an open connection; an empty payload or a decode failure enqueues nothing; a decoded payload is enqueued exactly once; the thread never dies |
| MaskServer.StepAgreesWhenSurvived | main.py:36-52 | the corrected step differs from the written one only where the written one dies |
| MaskServer.ServeAsWritten | main.py:35-52 | the queue only ever grows at its end |
| MaskServer.Serve | main.py:35-52 | the corrected loop never dies and the queue only grows at its end |
| MaskServer.ServeBlocksOnlyOnOpen | main.py:35-44 | the corrected loop stops serving iff some peer never closes its connection |
| MaskServer.ServeEnqueuesInOrder | main.py:35-52 | over closed connections, exactly the decodable payloads are appended, in arrival order |
| MaskServer.FirstStop | main.py:35-52 | the first connection the written loop does not survive: every earlier one closed with a payload that is not fatal, and this one is still open or fatal |
| MaskServer.SurvivedPayloads | main.py:35-52 | the values the written loop enqueues before it stops are the decodable payloads of the connections before the first stop, in order |
| MaskServer.ServeAsWrittenStopsAtFirst | main.py:35-52 | the written loop serves exactly the connections before the first stop, then is blocked if that one is still open and dead if it is fatal, after enqueuing a value it decoded; with no stop it is still listening |
| MaskServer.InvalidUtf8KillsServer | main.py:45-52 | as written, a payload that is not UTF-8 kills the server and a later good update is lost; the corrected loop enqueues the good update |
| MaskServer.ScalarPayloadKillsServer | main.py:48-50 | as written, a payload decoding to a number kills the server after being enqueued; the corrected loop keeps serving |
| Pipeline.PointsArrive | main.py:59-63 | a sent vertex arrives rescaled from the canvas size to the frame size |
| Pipeline.SentRecordBecomesMask | main.py:57-68 | a sent record of a closed shape is accepted, kept, and becomes a mask with the rescaled vertices |
| Pipeline.SavedRecordsBecomeMasks | main.py:54-70 | a list of sent records becomes one mask per shape, in order |
| Pipeline.SentShapesBecomeMasks | main.py:54-70 | after a send, the player holds one mask per closed shape, in canvas order, named by position, with each vertex rescaled to the frame; masking is on |
| Pipeline.SameSizeKeepsPolygons | main.py:61 | when the frame has the canvas size, every mask is exactly the drawn polygon |
| Pipeline.ReceivedUpdateAppliedNextTick | main.py:72-79 | an update the server as written receives while the queue is empty is applied at the next frame, leaving the queue empty |

## Left out

- Qt widgets, painting, button wiring and message boxes (shape_editor.py:191-221, 258-306, 347-354). They are presentation only.
- The random colour of a new shape (shape_editor.py:21-29) is a parameter (`color`, `palette`).
- Sockets, `threading` and `queue.Queue` locking are not modelled. A connection is the sequence of `recv` results, and the queue is a sequence. Concurrency between the server thread and the render loop is out of scope.
- The UTF-8 and JSON decoders are the parameter `decode`. `json.dumps` on the editor side is not modelled: the payload is compared as a decoded value. NaN, Infinity and recursion limits of the decoder are not represented.
- OpenCV video capture, windowing, fullscreen, key polling and the editor subprocess (main.py:81-90, 106-136, 155-188) are left out. `RenderLoop.RenderTick` takes the frame to show as a parameter.
- Rasterization by `cv2.fillPoly` is the parameter `inside`.
- `load_video` (main.py:81-90) sets the frame size from the video; here the size is a field of `Player` that the caller supplies.
- `get_numpy_points` (shape_editor.py:43-48) is folded into `EditorCanvas.ShapesAsArrays`: the exported shapes always have vertices, so its `None` case cannot arise there.
- File I/O in `save_to_json` and `load_from_json` is left out; only the dict-to-shape mapping is modelled.
- IEEE floating point is not modelled: coordinates are exact reals. Python's `x / w * w` can fall just below `x` and lose a pixel on truncation. The round-trip lemmas hold for exact reals only.
- PyJson.Keys: the keys are listed in the order of their first occurrence, as a Python dict keeps them, but the contract states only which keys occur and that none repeats.
- PlayerMasks.MaskPoint: does not model string coordinates. In Python, `"1" * width` is string repetition, which `int()` may then parse, and a two-key dict unpacks into its keys. Such elements are treated as raising.
- PlayerMasks.MaskOf: does not model the `int32` overflow of `np.array(..., dtype=np.int32)` for huge coordinates.
- EditorCanvas.LoadColor: `QColor` range checks on channel values are not modelled; any integer is accepted.
- EditorCanvas.LoadPoint: does not model string coordinates. In Python, `"0" * width` is string repetition, which `int()` may then parse, so `["0", "0"]` loads as the origin. Such points are treated as raising.
- EditorCanvas.RescaleShapes: when a vertex overflows, Python has already rescaled the shapes before it; the model returns `None` and does not keep that partial state.
- Compositor.ApplyAllMasks: a kept record with an empty `points` list becomes a mask whose array has shape `(0,)`. Whether `cv2.fillPoly` then raises depends on OpenCV's input checks, which are not modelled: such a polygon paints whatever `inside` says.
- EditorWindow.SendShapes: a `ZeroDivisionError` escaping the Qt slot is the `Crashed` outcome. The connection and write are the parameter `delivered`.

## Findings

| source | as written | input that shows it | evidently intended | confidence | as-written member | corrected member |
|---|---|---|---|---|---|---|
| main.py:45-52 | only `json.JSONDecodeError` is caught around `data.decode('utf-8')` and `json.loads` | a connection sending the single byte `0xFF`: `UnicodeDecodeError` escapes, the server thread ends, and no later update is ever received | drop any undecodable payload and keep listening | not executed; high | MaskServer.InvalidUtf8KillsServer | MaskServer.Step |
| main.py:48-50 | `len(shapes_data)` in the log line is evaluated after the value was enqueued, outside the caught exception | a connection sending `5`: the number is enqueued, `len()` raises `TypeError`, and the server thread ends | log the update and keep listening | not executed; high | MaskServer.ScalarPayloadKillsServer | MaskServer.Step |
