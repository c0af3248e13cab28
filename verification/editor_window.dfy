/** The editor's main window actions that touch the shape model
    (`MainWindow` in shape_editor.py): starting a new shape and sending
    the closed shapes to the player. */
module EditorWindow {
  import opened Outcome
  import opened PyJson
  import opened Coordinates
  import opened EditorShape
  import opened EditorCanvas

  /** How a press of the send button ends. `Crashed` is a
      `ZeroDivisionError` escaping the handler; `ConnectionFailed` is a
      refused or broken connection, reported in a message box. */
  datatype SendOutcome =
    | NoClosedShapes
    | Crashed
    | ConnectionFailed
    | Sent(payload: Json)

  /** `start_new_shape`: tries to close the current shape, then stops
      drawing whether or not that worked. */
  function StartNewShape(c: Canvas): (r: Canvas)
    requires Valid(c)
    ensures Valid(r) && r.current == NoCurrent
    ensures AllProper(c.shapes) ==> AllProper(r.shapes)
    ensures |r.shapes| == |c.shapes|
    ensures forall i :: 0 <= i < |c.shapes| ==>
      r.shapes[i].points == c.shapes[i].points && r.shapes[i].color == c.shapes[i].color
    // unlike a right click, an open shape with too few vertices stays in the list
    ensures c.current.InList? && |c.shapes[c.current.index].points| < 3 ==> r.shapes == c.shapes
    // an open listed shape with more than two vertices is closed, in place
    ensures c.current.InList? && !c.shapes[c.current.index].isClosed && |c.shapes[c.current.index].points| > 2 ==>
      r.shapes == c.shapes[c.current.index := c.shapes[c.current.index].(isClosed := true)]
    ensures c.current.InList? && c.shapes[c.current.index].isClosed ==> r.shapes == c.shapes
    // closing a shape that is no longer listed changes nothing in the list
    ensures !c.current.InList? ==> r.shapes == c.shapes
    ensures (r.width, r.height, r.lastWidth, r.lastHeight) == (c.width, c.height, c.lastWidth, c.lastHeight)
  {
    CloseCurrent(c).0.(current := NoCurrent)
  }

  /** The closed shapes, in list order. */
  function ClosedShapes(shapes: seq<Shape>): (r: seq<Shape>)
    ensures |r| == CountClosed(shapes)
    ensures forall k :: 0 <= k < |r| ==> r[k].isClosed && r[k] in shapes
    ensures forall i :: 0 <= i < |shapes| && shapes[i].isClosed ==> shapes[i] in r
  {
    if |shapes| == 0 then []
    else
      assert forall i :: 1 <= i < |shapes| ==> shapes[i] == shapes[1..][i - 1];
      (if shapes[0].isClosed then [shapes[0]] else []) + ClosedShapes(shapes[1..])
  }

  /** Filtering keeps relative order: the closed shapes of a concatenation
      are those of the first part followed by those of the second. */
  lemma {:induction false} ClosedShapesAppend(a: seq<Shape>, b: seq<Shape>)
    ensures ClosedShapes(a + b) == ClosedShapes(a) + ClosedShapes(b)
  {
    if |a| > 0 {
      assert (a + b)[1..] == a[1..] + b;
      ClosedShapesAppend(a[1..], b);
    } else {
      assert a + b == b;
    }
  }

  /** Dict item assignment `rec['points'] = pts` on a decoded object: the
      existing field keeps its position; a missing one is appended. */
  function WithPoints(rec: Json, pts: Json): (r: Json)
    requires rec.JObj?
    ensures r.JObj? && Get(r.fields, "points") == Some(pts)
    ensures forall key :: key != "points" ==> Get(r.fields, key) == Get(rec.fields, key)
  {
    var fields := rec.fields;
    if exists i :: 0 <= i < |fields| && fields[i].0 == "points" then
      var updated := seq(|fields|, i requires 0 <= i < |fields| =>
        if fields[i].0 == "points" then ("points", pts) else fields[i]);
      var i :| 0 <= i < |fields| && fields[i].0 == "points";
      GetAllSame(updated, "points", pts, i);
      assert forall key | key != "points" :: Get(updated, key) == Get(fields, key) by {
        forall key | key != "points" ensures Get(updated, key) == Get(fields, key) {
          GetAgree(updated, fields, key);
        }
      }
      JObj(updated)
    else
      var appended := fields + [("points", pts)];
      assert forall key | key != "points" :: Get(appended, key) == Get(fields, key) by {
        forall key | key != "points" ensures Get(appended, key) == Get(fields, key) {
          assert appended[..|appended| - 1] == fields;
        }
      }
      JObj(appended)
  }

  /** The points of one record divided by the canvas size,
      `[[p[0] / width, p[1] / height] for p in points]`; `None` is the
      `ZeroDivisionError` at the first vertex of a zero-sized canvas. */
  function DividedPoints(ps: seq<Point>, w: int, h: int): (r: Option<Json>)
    ensures r.None? <==> (w == 0 || h == 0) && |ps| > 0
    ensures r.Some? && |ps| > 0 ==> r == Some(NormalizedPointsJson(ps, w, h))
    ensures r.Some? && |ps| == 0 ==> r == Some(JArr([]))
  {
    if |ps| == 0 then Some(JArr([]))
    else if w == 0 || h == 0 then None
    else Some(NormalizedPointsJson(ps, w, h))
  }

  /** The list comprehension `shape.to_dict()` over the closed shapes,
      followed by the in-place division of every record's points. */
  function Payload(closed: seq<Shape>, w: int, h: int): (r: Option<Json>)
    ensures r.Some? <==> forall k :: 0 <= k < |closed| ==> DividedPoints(closed[k].points, w, h).Some?
    ensures r.Some? ==> r.value.JArr? && |r.value.items| == |closed|
    ensures r.Some? ==> forall k :: 0 <= k < |closed| ==>
      r.value.items[k] == WithPoints(ToDict(closed[k]), DividedPoints(closed[k].points, w, h).value)
  {
    if forall k :: 0 <= k < |closed| ==> DividedPoints(closed[k].points, w, h).Some? then
      Some(JArr(seq(|closed|, k requires 0 <= k < |closed| =>
        WithPoints(ToDict(closed[k]), DividedPoints(closed[k].points, w, h).value))))
    else None
  }

  /** Building the payload raises exactly when the canvas has a zero side
      and some shape has a vertex to divide. */
  lemma PayloadFails(closed: seq<Shape>, w: int, h: int)
    ensures Payload(closed, w, h).None? <==>
      (w == 0 || h == 0) && exists k :: 0 <= k < |closed| && |closed[k].points| > 0
  {
    if Payload(closed, w, h).None? {
      var k :| 0 <= k < |closed| && DividedPoints(closed[k].points, w, h).None?;
    }
    if (w == 0 || h == 0) && exists k :: 0 <= k < |closed| && |closed[k].points| > 0 {
      var k :| 0 <= k < |closed| && |closed[k].points| > 0;
      assert DividedPoints(closed[k].points, w, h).None?;
    }
  }

  /** The record sent for one closed shape: marked closed, its colour, and
      its points divided by the canvas size. */
  lemma PayloadRecord(s: Shape, w: int, h: int)
    requires s.isClosed && DividedPoints(s.points, w, h).Some?
    ensures var rec := WithPoints(ToDict(s), DividedPoints(s.points, w, h).value);
      && rec.JObj?
      && Get(rec.fields, "is_closed") == Some(JBool(true))
      && Get(rec.fields, "color") == Some(ColorJson(s.color))
      && Get(rec.fields, "points") == DividedPoints(s.points, w, h)
  {
    assert "is_closed" != "points" && "color" != "points";
  }

  /** Every record of a payload of closed shapes, as the player reads it. */
  lemma PayloadRecords(closed: seq<Shape>, w: int, h: int)
    requires forall k :: 0 <= k < |closed| ==> closed[k].isClosed
    requires Payload(closed, w, h).Some?
    ensures forall k :: 0 <= k < |closed| ==>
      var rec := Payload(closed, w, h).value.items[k];
      rec.JObj? &&
      Get(rec.fields, "is_closed") == Some(JBool(true)) &&
      Get(rec.fields, "color") == Some(ColorJson(closed[k].color)) &&
      Get(rec.fields, "points") == DividedPoints(closed[k].points, w, h)
  {
    forall k | 0 <= k < |closed|
      ensures
        var rec := Payload(closed, w, h).value.items[k];
        rec.JObj? &&
        Get(rec.fields, "is_closed") == Some(JBool(true)) &&
        Get(rec.fields, "color") == Some(ColorJson(closed[k].color)) &&
        Get(rec.fields, "points") == DividedPoints(closed[k].points, w, h)
    {
      PayloadRecord(closed[k], w, h);
    }
  }

  /** `send_shapes`, with `delivered` standing for whether connecting to
      the player and writing the encoded payload succeeded. */
  function SendShapes(c: Canvas, delivered: bool): (r: (Canvas, SendOutcome))
    // with no closed shape there is nothing to send
    ensures r.1.NoClosedShapes? <==> forall i :: 0 <= i < |c.shapes| ==> !c.shapes[i].isClosed
    // the canvas is cleared only after a successful send, and otherwise untouched
    ensures r.1.Sent? ==> r.0 == ClearAll(c)
    ensures !r.1.Sent? ==> r.0 == c
    ensures r.1.Sent? ==> delivered
    // dividing by a zero size raises as soon as a closed shape has a vertex
    ensures r.1.Crashed? <==>
      var closed := ClosedShapes(c.shapes);
      (c.width == 0 || c.height == 0) && exists k :: 0 <= k < |closed| && |closed[k].points| > 0
    ensures r.1.ConnectionFailed? <==> !delivered && !r.1.NoClosedShapes? && !r.1.Crashed?
    ensures r.1.Sent? <==> delivered && !r.1.NoClosedShapes? && !r.1.Crashed?
    // the payload is the closed shapes, in order, with normalized points
    ensures r.1.Sent? ==>
      var closed := ClosedShapes(c.shapes);
      && r.1.payload.JArr? && |r.1.payload.items| == |closed|
      && forall k :: 0 <= k < |closed| ==>
           var rec := r.1.payload.items[k];
           rec.JObj? &&
           Get(rec.fields, "is_closed") == Some(JBool(true)) &&
           Get(rec.fields, "color") == Some(ColorJson(closed[k].color)) &&
           Get(rec.fields, "points") == DividedPoints(closed[k].points, c.width, c.height)
  {
    var closed := ClosedShapes(c.shapes);
    PayloadFails(closed, c.width, c.height);
    if |c.shapes| == 0 || |closed| == 0 then (c, NoClosedShapes)
    else
      match Payload(closed, c.width, c.height)
      case None => (c, Crashed)
      case Some(payload) =>
        PayloadRecords(closed, c.width, c.height);
        if delivered then (ClearAll(c), Sent(payload)) else (c, ConnectionFailed)
  }

  /** Replacing the points of a record built by `Record` rebuilds it with
      the new points. */
  lemma WithPointsOnRecord(before: Json, isClosed: bool, color: Json, pts: Json)
    ensures WithPoints(Record(before, isClosed, color), pts) == Record(pts, isClosed, color)
  {
    var fields := Record(before, isClosed, color).fields;
    assert fields[0].0 == "points";
    assert "is_closed" != "points" && "color" != "points";
    var r := WithPoints(Record(before, isClosed, color), pts);
    assert r.fields == Record(pts, isClosed, color).fields;
  }

  /** On a canvas of non-zero size every sent record is exactly the record
      `shape_to_dict` writes for that shape when saving. */
  lemma SentRecordsAreSavedRecords(c: Canvas)
    requires c.width != 0 && c.height != 0
    requires exists i :: 0 <= i < |c.shapes| && c.shapes[i].isClosed
    ensures SendShapes(c, true).1.Sent?
    ensures forall k :: 0 <= k < |ClosedShapes(c.shapes)| ==>
      SendShapes(c, true).1.payload.items[k] == ShapeToDict(c, ClosedShapes(c.shapes)[k])
  {
    var closed := ClosedShapes(c.shapes);
    var p := Payload(closed, c.width, c.height);
    assert p.Some?;
    forall k | 0 <= k < |closed|
      ensures p.value.items[k] == ShapeToDict(c, closed[k])
    {
      var s := closed[k];
      WithPointsOnRecord(PixelPointsJson(s.points), s.isClosed, ColorJson(s.color),
                         NormalizedPointsJson(s.points, c.width, c.height));
    }
  }
}
