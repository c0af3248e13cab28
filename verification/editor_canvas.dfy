/** The drawing canvas of the shape editor (`CanvasWidget` in
    shape_editor.py): the list of shapes, the shape being drawn, and the
    coordinate rules applied on save, load and resize. */
module EditorCanvas {
  import opened Outcome
  import opened PyJson
  import opened Coordinates
  import opened EditorShape

  /** What `current_shape` refers to: nothing, a shape of the list (by
      position), or a shape object that is no longer in the list. The last
      case arises when loading fails after the list has been replaced. */
  datatype Current =
    | NoCurrent
    | InList(index: nat)
    | Detached(shape: Shape)

  /** `width`/`height` are the widget's present size; `lastWidth`/
      `lastHeight` the size recorded after the last resize event. */
  datatype Canvas = Canvas(
    shapes: seq<Shape>,
    current: Current,
    width: int,
    height: int,
    lastWidth: int,
    lastHeight: int)

  datatype Button = LeftButton | RightButton | OtherButton

  /** A shape reference into the list points at an existing entry. */
  predicate Valid(c: Canvas) {
    c.current.InList? ==> c.current.index < |c.shapes|
  }

  /** Every closed shape has at least three vertices. */
  predicate AllProper(shapes: seq<Shape>) {
    forall i :: 0 <= i < |shapes| ==> Proper(shapes[i])
  }

  /** A freshly constructed canvas of the given size. */
  function NewCanvas(w: int, h: int): (c: Canvas)
    ensures Valid(c) && AllProper(c.shapes) && c.current == NoCurrent
    ensures c.shapes == [] && (c.width, c.height, c.lastWidth, c.lastHeight) == (w, h, w, h)
  {
    Canvas([], NoCurrent, w, h, w, h)
  }

  // ---------------------------------------------------------------- saving

  /** `shape_to_dict`: the record of a shape with coordinates divided by the
      canvas size; a canvas with a zero dimension yields no points and an
      empty colour. */
  function ShapeToDict(c: Canvas, s: Shape): (r: Json)
    ensures r.JObj?
    ensures Get(r.fields, "is_closed") == Some(JBool(s.isClosed))
    ensures c.width == 0 || c.height == 0 ==>
      Get(r.fields, "points") == Some(JArr([])) && Get(r.fields, "color") == Some(JObj([]))
    ensures c.width != 0 && c.height != 0 ==>
      Get(r.fields, "points") == Some(NormalizedPointsJson(s.points, c.width, c.height)) &&
      Get(r.fields, "color") == Some(ColorJson(s.color))
  {
    if c.width == 0 || c.height == 0 then
      RecordFields(JArr([]), s.isClosed, JObj([]));
      Record(JArr([]), s.isClosed, JObj([]))
    else
      RecordFields(NormalizedPointsJson(s.points, c.width, c.height), s.isClosed, ColorJson(s.color));
      Record(NormalizedPointsJson(s.points, c.width, c.height), s.isClosed, ColorJson(s.color))
  }

  /** Number of closed shapes. */
  function CountClosed(shapes: seq<Shape>): (n: nat)
    ensures n <= |shapes|
    ensures n == 0 <==> forall i :: 0 <= i < |shapes| ==> !shapes[i].isClosed
  {
    if |shapes| == 0 then 0
    else
      assert forall i :: 1 <= i < |shapes| ==> shapes[i] == shapes[1..][i - 1];
      (if shapes[0].isClosed then 1 else 0) + CountClosed(shapes[1..])
  }

  /** The records of all shapes, in list order. */
  function ShapesJson(c: Canvas): (r: Json)
    ensures r.JArr? && |r.items| == |c.shapes|
    ensures forall i :: 0 <= i < |c.shapes| ==> r.items[i] == ShapeToDict(c, c.shapes[i])
  {
    JArr(seq(|c.shapes|, i requires 0 <= i < |c.shapes| => ShapeToDict(c, c.shapes[i])))
  }

  /** The document `save_to_json` writes (the file write itself is not
      modelled): every shape, open or closed, plus counts and canvas size. */
  function SaveDocument(c: Canvas): (r: Json)
    ensures r.JObj?
    ensures Get(r.fields, "shapes") == Some(ShapesJson(c))
  {
    var meta := JObj([
      ("total_shapes", JInt(|c.shapes|)),
      ("closed_shapes", JInt(CountClosed(c.shapes))),
      ("canvas_size", JObj([("width", JInt(c.width)), ("height", JInt(c.height))]))]);
    var fields := [("shapes", ShapesJson(c)), ("metadata", meta)];
    assert "shapes" != "metadata";
    GetUnique(fields, "shapes", 0);
    JObj(fields)
  }

  // --------------------------------------------------------------- loading

  /** `QPoint(int(point[0] * width), int(point[1] * height))`; `None` when
      the point cannot be indexed twice, its coordinates are not numbers, or
      a truncated coordinate does not fit a `QPoint`. */
  function LoadPoint(j: Json, w: int, h: int): (r: Option<Point>)
    ensures r.Some? <==>
      && j.JArr? && |j.items| >= 2 && AsNumber(j.items[0]).Some? && AsNumber(j.items[1]).Some?
      && FitsQPoint(Denormalize(NormPoint(AsNumber(j.items[0]).value, AsNumber(j.items[1]).value), w, h))
    // the pair read as fractions of the frame, then scaled and truncated
    ensures r.Some? ==>
      r.value == Denormalize(NormPoint(AsNumber(j.items[0]).value, AsNumber(j.items[1]).value), w, h)
  {
    if j.JArr? && |j.items| >= 2 && AsNumber(j.items[0]).Some? && AsNumber(j.items[1]).Some? then
      var p := Denormalize(NormPoint(AsNumber(j.items[0]).value, AsNumber(j.items[1]).value), w, h);
      if FitsQPoint(p) then Some(p) else None
    else None
  }

  /** `color_data.get(key, 255)` handed to `QColor`, which accepts only integers. */
  function Channel(fields: seq<(string, Json)>, key: string): (r: Option<int>)
    ensures Get(fields, key).None? ==> r == Some(255)
    ensures (exists k :: Get(fields, key) == Some(JInt(k))) ==> r == Some(Get(fields, key).value.i)
    ensures Get(fields, key).Some? && Get(fields, key).value.JFloat? ==> r.None?
    // only an integer or a bool gets past `QColor`'s argument check
    ensures r.Some? <==> Get(fields, key).None? || Get(fields, key).value.JInt? || Get(fields, key).value.JBool?
    ensures Get(fields, key).Some? && Get(fields, key).value.JBool? ==>
      r == Some(if Get(fields, key).value.b then 1 else 0)
  {
    AsInt(GetOr(fields, key, JInt(255)))
  }

  /** The colour of a loaded shape, from `shape_data.get('color', {})`: a
      falsy value keeps the shape's own colour; a truthy value must be an
      object whose channels default to 255. */
  function LoadColor(data: Json, own: Color): (r: Option<Color>)
    ensures !Truthy(data) ==> r == Some(own)
    ensures Truthy(data) && !data.JObj? ==> r.None?
    ensures Truthy(data) && data.JObj? ==>
      (r.Some? <==>
        Channel(data.fields, "red").Some? && Channel(data.fields, "green").Some? &&
        Channel(data.fields, "blue").Some? && Channel(data.fields, "alpha").Some?)
    ensures Truthy(data) && r.Some? ==>
      r.value.red == Channel(data.fields, "red").value &&
      r.value.green == Channel(data.fields, "green").value &&
      r.value.blue == Channel(data.fields, "blue").value &&
      r.value.alpha == Channel(data.fields, "alpha").value
  {
    if !Truthy(data) then Some(own)
    else if !data.JObj? then None
    else
      match (Channel(data.fields, "red"), Channel(data.fields, "green"),
             Channel(data.fields, "blue"), Channel(data.fields, "alpha"))
      case (Some(r), Some(g), Some(b), Some(a)) => Some(Color(r, g, b, a))
      case _ => None
  }

  /** The vertex list a record's `points` value yields; `None` when
      iteration or a point fails. */
  function LoadPoints(pj: Json, w: int, h: int): (r: Option<seq<Point>>)
    ensures r.Some? ==> Iterate(pj).Some? && |r.value| == |Iterate(pj).value|
    ensures r.Some? ==>
      forall i :: 0 <= i < |r.value| ==> LoadPoint(Iterate(pj).value[i], w, h) == Some(r.value[i])
    ensures r.Some? <==>
      (Iterate(pj).Some? &&
       forall i :: 0 <= i < |Iterate(pj).value| ==> LoadPoint(Iterate(pj).value[i], w, h).Some?)
  {
    match Iterate(pj)
    case None => None
    case Some(items) => MapAll(items, (j: Json) => LoadPoint(j, w, h))
  }

  /** One iteration of the loading loop: a new shape (colour `own`) gets the
      points, is closed when `is_closed` is truthy and `Close` accepts, and
      takes the record's colour. `None` when Python raises on the record. */
  function LoadRecord(rec: Json, w: int, h: int, own: Color): (r: Option<Shape>)
    ensures r.Some? <==>
      && rec.JObj?
      && Get(rec.fields, "points").Some?
      && LoadPoints(Get(rec.fields, "points").value, w, h).Some?
      && LoadColor(GetOr(rec.fields, "color", JObj([])), own).Some?
    ensures r.Some? ==> r.value.points == LoadPoints(Get(rec.fields, "points").value, w, h).value
    ensures r.Some? ==>
      (r.value.isClosed <==> Truthy(GetOr(rec.fields, "is_closed", JBool(false))) && |r.value.points| > 2)
    ensures r.Some? ==> Some(r.value.color) == LoadColor(GetOr(rec.fields, "color", JObj([])), own)
    ensures r.Some? ==> Proper(r.value)
  {
    if !rec.JObj? then None
    else
      match Get(rec.fields, "points")
      case None => None
      case Some(pj) =>
        match LoadPoints(pj, w, h)
        case None => None
        case Some(pts) =>
          var s0 := Shape(pts, false, own);
          var s1 := if Truthy(GetOr(rec.fields, "is_closed", JBool(false))) then Close(s0).0 else s0;
          match LoadColor(GetOr(rec.fields, "color", JObj([])), own)
          case None => None
          case Some(col) => Some(s1.(color := col))
  }

  /** Record `i` loaded into a shape whose own colour is `palette(i)`. */
  function LoadAt(recs: seq<Json>, i: nat, w: int, h: int, palette: nat -> Color): Option<Shape>
    requires i < |recs|
  {
    LoadRecord(recs[i], w, h, palette(i))
  }

  /** The reference `current_shape` keeps when the list is replaced under it. */
  function Detach(c: Canvas): (r: Current)
    requires Valid(c)
    ensures !r.InList?
  {
    match c.current
    case InList(i) => Detached(c.shapes[i])
    case other => other
  }

  /** The records `load_from_json` iterates over, `None` when the document
      is not an object or its `shapes` value is not iterable. */
  function DocumentRecords(data: Json): Option<seq<Json>> {
    if data.JObj? then Iterate(GetOr(data.fields, "shapes", JArr([]))) else None
  }

  /** The dict-to-shapes part of `load_from_json`. The list is emptied
      first; on success it holds one shape per record and nothing is being
      drawn; on failure it keeps the shapes loaded before the failing
      record and `current_shape` still refers to the old object. */
  function LoadShapes(c: Canvas, data: Json, palette: nat -> Color): (r: (Canvas, bool))
    requires Valid(c)
    ensures Valid(r.0) && AllProper(r.0.shapes)
    ensures (r.0.width, r.0.height, r.0.lastWidth, r.0.lastHeight) == (c.width, c.height, c.lastWidth, c.lastHeight)
    ensures r.1 <==>
      (DocumentRecords(data).Some? &&
       forall i :: 0 <= i < |DocumentRecords(data).value| ==>
         LoadAt(DocumentRecords(data).value, i, c.width, c.height, palette).Some?)
    ensures r.1 ==> r.0.current == NoCurrent && |r.0.shapes| == |DocumentRecords(data).value|
    ensures !r.1 ==> r.0.current == Detach(c)
    ensures DocumentRecords(data).None? ==> r.0.shapes == []
    ensures DocumentRecords(data).Some? ==>
      |r.0.shapes| <= |DocumentRecords(data).value| &&
      forall k :: 0 <= k < |r.0.shapes| ==>
        LoadAt(DocumentRecords(data).value, k, c.width, c.height, palette) == Some(r.0.shapes[k])
    // loading stops at the first record that raises
    ensures DocumentRecords(data).Some? && !r.1 ==>
      |r.0.shapes| < |DocumentRecords(data).value| &&
      LoadAt(DocumentRecords(data).value, |r.0.shapes|, c.width, c.height, palette).None?
  {
    match DocumentRecords(data)
    case None => (c.(shapes := [], current := Detach(c)), false)
    case Some(recs) =>
      var load := (i: nat, rec: Json) => LoadRecord(rec, c.width, c.height, palette(i));
      var loaded := CollectUntilFailure(recs, 0, load);
      assert forall i :: 0 <= i < |recs| ==> load(i, recs[i]) == LoadAt(recs, i, c.width, c.height, palette);
      if loaded.1 then (c.(shapes := loaded.0, current := NoCurrent), true)
      else
        assert LoadAt(recs, |loaded.0|, c.width, c.height, palette).None?;
        (c.(shapes := loaded.0, current := Detach(c)), false)
  }

  /** Normalized vertices load back into the vertices they came from. */
  lemma PointsRoundTrip(ps: seq<Point>, w: int, h: int)
    requires w != 0 && h != 0
    requires forall i :: 0 <= i < |ps| ==> FitsQPoint(ps[i])
    ensures LoadPoints(NormalizedPointsJson(ps, w, h), w, h) == Some(ps)
  {
    var pj := NormalizedPointsJson(ps, w, h);
    assert Iterate(pj) == Some(pj.items);
    forall i | 0 <= i < |ps|
      ensures LoadPoint(pj.items[i], w, h) == Some(ps[i])
    {
      NormalizeRoundTrip(ps[i], w, h);
    }
    var pts := LoadPoints(pj, w, h);
    assert pts.Some?;
    assert pts.value == ps;
  }

  /** A written colour object loads back into the same colour. */
  lemma ColorRoundTrip(col: Color, own: Color)
    ensures LoadColor(ColorJson(col), own) == Some(col)
  {
    ColorFields(col);
  }

  /** The record `shape_to_dict` writes for a proper shape on a canvas of
      non-zero size loads back, at that size, into the same shape. */
  lemma RecordRoundTrip(c: Canvas, s: Shape, own: Color)
    requires c.width != 0 && c.height != 0 && Proper(s) && Fits(s)
    ensures LoadRecord(ShapeToDict(c, s), c.width, c.height, own) == Some(s)
  {
    var rec := ShapeToDict(c, s);
    PointsRoundTrip(s.points, c.width, c.height);
    ColorRoundTrip(s.color, own);
    assert GetOr(rec.fields, "color", JObj([])) == ColorJson(s.color);
    assert Truthy(GetOr(rec.fields, "is_closed", JBool(false))) == s.isClosed;
  }

  /** Every record of a document saved from a canvas of positive size
      loads back into the shape it was written from. */
  lemma SavedRecordsLoad(c: Canvas, palette: nat -> Color)
    requires c.width > 0 && c.height > 0 && AllProper(c.shapes) && AllFit(c.shapes)
    ensures DocumentRecords(SaveDocument(c)) == Some(ShapesJson(c).items)
    ensures forall i :: 0 <= i < |c.shapes| ==>
      LoadAt(ShapesJson(c).items, i, c.width, c.height, palette) == Some(c.shapes[i])
  {
    var doc := SaveDocument(c);
    var recs := ShapesJson(c).items;
    assert GetOr(doc.fields, "shapes", JArr([])) == ShapesJson(c);
    forall i | 0 <= i < |recs|
      ensures LoadAt(recs, i, c.width, c.height, palette) == Some(c.shapes[i])
    {
      RecordRoundTrip(c, c.shapes[i], palette(i));
    }
  }

  /** A document saved from a canvas of positive size loads back, on a
      canvas of the same size, into exactly the saved shapes (open ones
      included), with nothing being drawn. */
  lemma SaveLoadRoundTrip(c: Canvas, d: Canvas, palette: nat -> Color)
    requires c.width > 0 && c.height > 0 && AllProper(c.shapes) && AllFit(c.shapes)
    requires Valid(d) && d.width == c.width && d.height == c.height
    ensures LoadShapes(d, SaveDocument(c), palette) == (d.(shapes := c.shapes, current := NoCurrent), true)
  {
    SavedRecordsLoad(c, palette);
    var r := LoadShapes(d, SaveDocument(c), palette);
    assert r.1;
    assert r.0.shapes == c.shapes by {
      assert |r.0.shapes| == |c.shapes|;
      forall k | 0 <= k < |c.shapes|
        ensures r.0.shapes[k] == c.shapes[k]
      {
        assert LoadAt(ShapesJson(c).items, k, c.width, c.height, palette) == Some(r.0.shapes[k]);
      }
    }
  }

  // ------------------------------------------------------------- resizing

  /** Whether any shape has a vertex (a division would be evaluated). */
  predicate HasPoints(shapes: seq<Shape>) {
    exists i :: 0 <= i < |shapes| && |shapes[i].points| > 0
  }

  function RescaleShape(s: Shape, ow: int, oh: int, nw: int, nh: int): (r: Shape)
    requires ow != 0 && oh != 0
    ensures |r.points| == |s.points| && r.isClosed == s.isClosed && r.color == s.color
    ensures forall j :: 0 <= j < |s.points| ==> r.points[j] == Rescale(s.points[j], ow, oh, nw, nh)
  {
    s.(points := seq(|s.points|, j requires 0 <= j < |s.points| => Rescale(s.points[j], ow, oh, nw, nh)))
  }

  /** Some vertex, rescaled, no longer fits a `QPoint`. */
  predicate RescaleOverflows(shapes: seq<Shape>, ow: int, oh: int, nw: int, nh: int)
    requires ow != 0 && oh != 0
  {
    exists i, j :: 0 <= i < |shapes| && 0 <= j < |shapes[i].points| &&
      !FitsQPoint(Rescale(shapes[i].points[j], ow, oh, nw, nh))
  }

  /** `rescale_shapes(old_width, old_height)` to the canvas's present size.
      `None` is the `ZeroDivisionError` raised at the first vertex when an
      old dimension is zero, or the `OverflowError` of a rescaled vertex
      that does not fit a `QPoint`. */
  function RescaleShapes(c: Canvas, ow: int, oh: int): (r: Option<Canvas>)
    ensures r.None? <==>
      || ((ow == 0 || oh == 0) && HasPoints(c.shapes))
      || (ow != 0 && oh != 0 && RescaleOverflows(c.shapes, ow, oh, c.width, c.height))
    ensures r.Some? ==>
      && |r.value.shapes| == |c.shapes|
      && r.value.(shapes := c.shapes) == c
      && forall i :: 0 <= i < |c.shapes| ==>
           |r.value.shapes[i].points| == |c.shapes[i].points| &&
           r.value.shapes[i].isClosed == c.shapes[i].isClosed &&
           r.value.shapes[i].color == c.shapes[i].color
    ensures r.Some? && ow != 0 && oh != 0 ==>
      forall i, j :: 0 <= i < |c.shapes| && 0 <= j < |c.shapes[i].points| ==>
        r.value.shapes[i].points[j] == Rescale(c.shapes[i].points[j], ow, oh, c.width, c.height)
    ensures r.Some? ==> AllFit(c.shapes) ==> AllFit(r.value.shapes)
    ensures r.Some? ==> (Valid(c) ==> Valid(r.value)) && (AllProper(c.shapes) ==> AllProper(r.value.shapes))
  {
    if ow == 0 || oh == 0 then
      if HasPoints(c.shapes) then None else Some(c)
    else if RescaleOverflows(c.shapes, ow, oh, c.width, c.height) then None
    else
      Some(c.(shapes := seq(|c.shapes|, i requires 0 <= i < |c.shapes| =>
        RescaleShape(c.shapes[i], ow, oh, c.width, c.height))))
  }

  /** Rescaling from the present size changes nothing. */
  lemma RescaleToSameSize(c: Canvas)
    requires c.width != 0 && c.height != 0 && AllFit(c.shapes)
    ensures RescaleShapes(c, c.width, c.height) == Some(c)
  {
    var r := RescaleShapes(c, c.width, c.height).value;
    forall i | 0 <= i < |c.shapes|
      ensures r.shapes[i] == c.shapes[i]
    {
      forall j | 0 <= j < |c.shapes[i].points|
        ensures r.shapes[i].points[j] == c.shapes[i].points[j]
      {
        RescaleSameSize(c.shapes[i].points[j], c.width, c.height);
      }
      assert r.shapes[i].points == c.shapes[i].points;
    }
    assert r.shapes == c.shapes;
  }

  /** `resizeEvent`: the widget takes its new size; the shapes are rescaled
      from the event's old size when there are shapes and the recorded size
      is positive; then the new size is recorded. */
  function Resize(c: Canvas, nw: int, nh: int, ow: int, oh: int): (r: Option<Canvas>)
    ensures r.Some? ==> r.value.width == nw && r.value.height == nh &&
                        r.value.lastWidth == nw && r.value.lastHeight == nh
    ensures r.Some? ==> |r.value.shapes| == |c.shapes| && r.value.current == c.current
    ensures !(|c.shapes| > 0 && c.lastWidth > 0 && c.lastHeight > 0) ==>
      r.Some? && r.value.shapes == c.shapes
    // with shapes and a positive recorded size, the shapes are rescaled from the old size
    ensures |c.shapes| > 0 && c.lastWidth > 0 && c.lastHeight > 0 ==>
      var rs := RescaleShapes(c.(width := nw, height := nh), ow, oh);
      (r.None? <==> rs.None?) && (r.Some? ==> r.value.shapes == rs.value.shapes)
    ensures r.Some? ==> (Valid(c) ==> Valid(r.value)) && (AllProper(c.shapes) ==> AllProper(r.value.shapes))
  {
    var c1 := c.(width := nw, height := nh);
    var c2 := if |c.shapes| > 0 && c.lastWidth > 0 && c.lastHeight > 0 then RescaleShapes(c1, ow, oh) else Some(c1);
    match c2
    case None => None
    case Some(c3) => Some(c3.(lastWidth := nw, lastHeight := nh))
  }

  // ------------------------------------------------------------ mouse input

  /** Adds a vertex to whatever `current_shape` refers to. */
  function AddToCurrent(c: Canvas, p: Point): (r: Canvas)
    requires Valid(c) && !c.current.NoCurrent?
    ensures Valid(r)
  {
    match c.current
    case InList(i) => c.(shapes := c.shapes[i := AddPoint(c.shapes[i], p)])
    case Detached(s) => c.(current := Detached(AddPoint(s, p)))
  }

  /** The right-click branch: an open current shape is closed, or removed
      from the list when it has fewer than three vertices; in every case
      nothing is being drawn afterwards. */
  function FinishCurrent(c: Canvas): (r: Canvas)
    requires Valid(c)
  {
    var shapes := match c.current
      case InList(i) =>
        if c.shapes[i].isClosed then c.shapes
        else if Close(c.shapes[i]).1 then c.shapes[i := Close(c.shapes[i]).0]
        else if |c.shapes[i].points| < 3 then c.shapes[..i] + c.shapes[i + 1..]
        else c.shapes
      case _ => c.shapes;
    c.(shapes := shapes, current := NoCurrent)
  }

  /** `mousePressEvent` for a press at pixel `pos`. A left press with no
      current shape first appends a new one (colour `color`) and records the
      size if none was recorded; then the vertex goes to the current shape. */
  function MousePress(c: Canvas, button: Button, pos: Point, color: Color): (r: Canvas)
    requires Valid(c)
    ensures Valid(r)
    ensures AllProper(c.shapes) ==> AllProper(r.shapes)
    ensures button.OtherButton? ==> r == c
    ensures r.width == c.width && r.height == c.height
    // the first shape drawn before any resize records the size it was drawn at
    ensures button.LeftButton? && c.current.NoCurrent? && c.lastWidth == 0 ==>
      r.lastWidth == c.width && r.lastHeight == c.height
    ensures !(button.LeftButton? && c.current.NoCurrent? && c.lastWidth == 0) ==>
      r.lastWidth == c.lastWidth && r.lastHeight == c.lastHeight
    // left press, nothing being drawn: a one-vertex open shape is appended and becomes current
    ensures button.LeftButton? && c.current.NoCurrent? ==>
      && r.shapes == c.shapes + [Shape([pos], false, color)]
      && r.current == InList(|c.shapes|)
    // left press while drawing a listed shape: that shape gains the vertex, nothing else changes
    ensures button.LeftButton? && c.current.InList? ==>
      var i := c.current.index;
      && |r.shapes| == |c.shapes| && r.current == c.current
      && r.shapes[i] == c.shapes[i].(points := c.shapes[i].points + [pos])
      && forall j :: 0 <= j < |c.shapes| && j != i ==> r.shapes[j] == c.shapes[j]
    // left press while drawing a shape no longer listed: only that shape gains the vertex
    ensures button.LeftButton? && c.current.Detached? ==>
      && r.shapes == c.shapes
      && r.current == Detached(c.current.shape.(points := c.current.shape.points + [pos]))
    // right press: drawing always ends
    ensures button.RightButton? ==> r.current == NoCurrent
    ensures button.RightButton? && c.current.InList? && !c.shapes[c.current.index].isClosed ==>
      var i := c.current.index;
      if |c.shapes[i].points| < 3 then
        r.shapes == c.shapes[..i] + c.shapes[i + 1..]
      else
        && |r.shapes| == |c.shapes|
        && r.shapes[i] == c.shapes[i].(isClosed := true)
        && forall j :: 0 <= j < |c.shapes| && j != i ==> r.shapes[j] == c.shapes[j]
    ensures button.RightButton? && !(c.current.InList? && !c.shapes[c.current.index].isClosed) ==>
      r.shapes == c.shapes
  {
    match button
    case LeftButton =>
      var c1 :=
        if c.current.NoCurrent? then
          var c0 := c.(shapes := c.shapes + [NewShape(color)], current := InList(|c.shapes|));
          if c.lastWidth == 0 then c0.(lastWidth := c.width, lastHeight := c.height) else c0
        else c;
      AddToCurrent(c1, pos)
    case RightButton => FinishCurrent(c)
    case OtherButton => c
  }

  // --------------------------------------------------------- button actions

  /** `close_current_shape`: closes the current shape if it is open and has
      more than two vertices, ends drawing and reports success; otherwise
      nothing changes. */
  function CloseCurrent(c: Canvas): (r: (Canvas, bool))
    requires Valid(c)
    ensures Valid(r.0)
    ensures AllProper(c.shapes) ==> AllProper(r.0.shapes)
    ensures r.1 <==>
      || (c.current.InList? && !c.shapes[c.current.index].isClosed && |c.shapes[c.current.index].points| > 2)
      || (c.current.Detached? && !c.current.shape.isClosed && |c.current.shape.points| > 2)
    ensures r.1 ==> r.0.current == NoCurrent && |r.0.shapes| == |c.shapes|
    ensures r.1 && c.current.InList? ==>
      r.0.shapes == c.shapes[c.current.index := c.shapes[c.current.index].(isClosed := true)]
    ensures r.1 && c.current.Detached? ==> r.0.shapes == c.shapes
    ensures !r.1 ==> r.0 == c
    ensures (r.0.width, r.0.height, r.0.lastWidth, r.0.lastHeight) == (c.width, c.height, c.lastWidth, c.lastHeight)
  {
    match c.current
    case InList(i) =>
      if !c.shapes[i].isClosed && Close(c.shapes[i]).1 then
        (c.(shapes := c.shapes[i := Close(c.shapes[i]).0], current := NoCurrent), true)
      else (c, false)
    case Detached(s) =>
      if !s.isClosed && Close(s).1 then (c.(current := NoCurrent), true) else (c, false)
    case NoCurrent => (c, false)
  }

  /** `clear_all`: no shapes, nothing being drawn, size untouched. */
  function ClearAll(c: Canvas): (r: Canvas)
    ensures r.shapes == [] && r.current == NoCurrent
    ensures (r.width, r.height, r.lastWidth, r.lastHeight) == (c.width, c.height, c.lastWidth, c.lastHeight)
    ensures Valid(r) && AllProper(r.shapes)
  {
    c.(shapes := [], current := NoCurrent)
  }

  /** `delete_last_shape`: drops the last shape; `current_shape` is cleared
      exactly when it referred to that shape. An empty list is left alone. */
  function DeleteLast(c: Canvas): (r: Canvas)
    requires Valid(c)
    ensures Valid(r)
    ensures AllProper(c.shapes) ==> AllProper(r.shapes)
    ensures |c.shapes| == 0 ==> r == c
    ensures |c.shapes| > 0 ==>
      && r.shapes == c.shapes[..|c.shapes| - 1]
      && (c.current == InList(|c.shapes| - 1) ==> r.current == NoCurrent)
      && (c.current != InList(|c.shapes| - 1) ==> r.current == c.current)
      && (r.width, r.height, r.lastWidth, r.lastHeight) == (c.width, c.height, c.lastWidth, c.lastHeight)
  {
    if |c.shapes| == 0 then c
    else
      var removed := |c.shapes| - 1;
      c.(shapes := c.shapes[..removed],
         current := if c.current == InList(removed) then NoCurrent else c.current)
  }

  // --------------------------------------------------------------- export

  /** A shape `get_all_shapes_as_numpy` exports. */
  predicate Exportable(s: Shape) {
    s.isClosed && |s.points| > 2
  }

  /** One exported entry: the shape's position in the list, its vertices
      and its colour. */
  datatype Tagged = Tagged(id: nat, points: seq<Point>, color: Color)

  /** `get_all_shapes_as_numpy`: exactly the closed shapes with more than
      two vertices, in list order, each tagged with its list position. */
  method ShapesAsArrays(c: Canvas) returns (r: seq<Tagged>)
    ensures forall k :: 0 <= k < |r| ==>
      && r[k].id < |c.shapes|
      && Exportable(c.shapes[r[k].id])
      && r[k].points == c.shapes[r[k].id].points
      && r[k].color == c.shapes[r[k].id].color
    ensures forall k, l :: 0 <= k < l < |r| ==> r[k].id < r[l].id
    ensures forall i :: 0 <= i < |c.shapes| && Exportable(c.shapes[i]) ==>
      exists k :: 0 <= k < |r| && r[k].id == i
  {
    r := [];
    var i := 0;
    while i < |c.shapes|
      invariant 0 <= i <= |c.shapes|
      invariant forall k :: 0 <= k < |r| ==>
        && r[k].id < i
        && Exportable(c.shapes[r[k].id])
        && r[k].points == c.shapes[r[k].id].points
        && r[k].color == c.shapes[r[k].id].color
      invariant forall k, l :: 0 <= k < l < |r| ==> r[k].id < r[l].id
      invariant forall j :: 0 <= j < i && Exportable(c.shapes[j]) ==>
        exists k :: 0 <= k < |r| && r[k].id == j
    {
      var s := c.shapes[i];
      if s.isClosed && |s.points| > 2 {
        var before := r;
        r := r + [Tagged(i, s.points, s.color)];
        assert forall k :: 0 <= k < |before| ==> r[k] == before[k];
        assert r[|before|].id == i;
      }
      i := i + 1;
    }
  }
}
