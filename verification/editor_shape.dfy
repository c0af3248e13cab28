/** One polygon of the shape editor (`Shape` in shape_editor.py): an
    ordered list of pixel vertices, a closed flag and a display colour. */
module EditorShape {
  import opened Outcome
  import opened PyJson
  import opened Coordinates

  /** An RGBA colour as `QColor` reports it channel by channel. */
  datatype Color = Color(red: int, green: int, blue: int, alpha: int)

  datatype Shape = Shape(points: seq<Point>, isClosed: bool, color: Color)

  /** A new empty, open shape. The colour is drawn at random from a palette
      in the editor; here it is supplied by the caller. */
  function NewShape(color: Color): Shape {
    Shape([], false, color)
  }

  /** Appends a vertex; nothing else about the shape changes. */
  function AddPoint(s: Shape, p: Point): (r: Shape)
    ensures |r.points| == |s.points| + 1 && r.points[|s.points|] == p
    ensures r.points[..|s.points|] == s.points
    ensures r.isClosed == s.isClosed && r.color == s.color
  {
    s.(points := s.points + [p])
  }

  /** Closes the polygon if it has more than two vertices and reports
      whether it did; otherwise the shape is left as it was. */
  function Close(s: Shape): (r: (Shape, bool))
    ensures r.1 <==> |s.points| > 2
    ensures r.1 ==> r.0.isClosed && r.0.points == s.points && r.0.color == s.color
    ensures !r.1 ==> r.0 == s
  {
    if |s.points| > 2 then (s.(isClosed := true), true) else (s, false)
  }

  /** Every vertex can be stored in a `QPoint`, as every vertex the editor
      itself creates is one. */
  predicate Fits(s: Shape) {
    forall j :: 0 <= j < |s.points| ==> FitsQPoint(s.points[j])
  }

  predicate AllFit(shapes: seq<Shape>) {
    forall i :: 0 <= i < |shapes| ==> Fits(shapes[i])
  }

  /** A shape that `Close` has marked closed has at least three vertices. */
  predicate Proper(s: Shape) {
    s.isClosed ==> |s.points| > 2
  }

  /** Closing twice is closing once, and closing keeps a shape proper. */
  lemma CloseIdempotent(s: Shape)
    ensures Close(Close(s).0).0 == Close(s).0
    ensures Proper(s) ==> Proper(Close(s).0)
  {
  }

  /** The JSON object of one shape record, fields in the order the editor
      writes them: `points`, `is_closed`, `color`. */
  function Record(points: Json, isClosed: bool, color: Json): Json {
    JObj([("points", points), ("is_closed", JBool(isClosed)), ("color", color)])
  }

  /** The fields of a record are found under their names. */
  lemma RecordFields(points: Json, isClosed: bool, color: Json)
    ensures Get(Record(points, isClosed, color).fields, "points") == Some(points)
    ensures Get(Record(points, isClosed, color).fields, "is_closed") == Some(JBool(isClosed))
    ensures Get(Record(points, isClosed, color).fields, "color") == Some(color)
  {
    var f := Record(points, isClosed, color).fields;
    assert "points" != "is_closed" && "color" != "is_closed" && "points" != "color";
    GetUnique(f, "points", 0);
    GetUnique(f, "is_closed", 1);
    GetUnique(f, "color", 2);
  }

  /** The four-channel colour object. */
  function ColorJson(c: Color): Json {
    JObj([("red", JInt(c.red)), ("green", JInt(c.green)), ("blue", JInt(c.blue)), ("alpha", JInt(c.alpha))])
  }

  /** The channels of a colour object are found under their names. */
  lemma ColorFields(c: Color)
    ensures Get(ColorJson(c).fields, "red") == Some(JInt(c.red))
    ensures Get(ColorJson(c).fields, "green") == Some(JInt(c.green))
    ensures Get(ColorJson(c).fields, "blue") == Some(JInt(c.blue))
    ensures Get(ColorJson(c).fields, "alpha") == Some(JInt(c.alpha))
  {
    var f := ColorJson(c).fields;
    assert "alpha"[0] != "green"[0];
    assert "red" != "green" && "red" != "blue" && "red" != "alpha" && "green" != "blue" && "blue" != "alpha";
    GetUnique(f, "red", 0);
    GetUnique(f, "green", 1);
    GetUnique(f, "blue", 2);
    GetUnique(f, "alpha", 3);
  }

  /** A vertex list as JSON pairs of integers. */
  function PixelPointsJson(ps: seq<Point>): (r: Json)
    ensures r.JArr? && |r.items| == |ps|
    ensures forall i :: 0 <= i < |ps| ==> r.items[i] == JArr([JInt(ps[i].x), JInt(ps[i].y)])
  {
    JArr(seq(|ps|, i requires 0 <= i < |ps| => JArr([JInt(ps[i].x), JInt(ps[i].y)])))
  }

  /** A vertex list divided by a width and height, as JSON pairs of floats. */
  function NormalizedPointsJson(ps: seq<Point>, w: int, h: int): (r: Json)
    requires w != 0 && h != 0
    ensures r.JArr? && |r.items| == |ps|
    ensures forall i :: 0 <= i < |ps| ==>
      r.items[i] == JArr([JFloat(Normalize(ps[i], w, h).x), JFloat(Normalize(ps[i], w, h).y)])
  {
    JArr(seq(|ps|, i requires 0 <= i < |ps| =>
      JArr([JFloat(Normalize(ps[i], w, h).x), JFloat(Normalize(ps[i], w, h).y)])))
  }

  /** `Shape.to_dict`: the record in pixel coordinates. */
  function ToDict(s: Shape): (r: Json)
    ensures r.JObj?
    ensures Get(r.fields, "points") == Some(PixelPointsJson(s.points))
    ensures Get(r.fields, "is_closed") == Some(JBool(s.isClosed))
    ensures Get(r.fields, "color") == Some(ColorJson(s.color))
  {
    RecordFields(PixelPointsJson(s.points), s.isClosed, ColorJson(s.color));
    Record(PixelPointsJson(s.points), s.isClosed, ColorJson(s.color))
  }
}
