/** The two halves together: what the player does with a shape list the
    editor sends. The closed shapes arrive as masks in the same order,
    each vertex moved from the canvas size to the frame size by the same
    relative position, and nothing is lost when the two sizes agree. */
module Pipeline {
  import opened Outcome
  import opened PyJson
  import opened Coordinates
  import opened EditorShape
  import opened EditorCanvas
  import opened EditorWindow
  import opened PlayerMasks
  import MaskServer

  /** A normalized vertex list arrives at the player as the vertices
      rescaled from the canvas size to the frame size. */
  lemma PointsArrive(ps: seq<Point>, cw: int, ch: int, fw: int, fh: int)
    requires cw != 0 && ch != 0
    ensures MaskPoints(NormalizedPointsJson(ps, cw, ch), fw, fh).Some?
    ensures var arrived := MaskPoints(NormalizedPointsJson(ps, cw, ch), fw, fh).value;
      |arrived| == |ps| && forall j :: 0 <= j < |ps| ==> arrived[j] == Rescale(ps[j], cw, ch, fw, fh)
  {
    var items := NormalizedPointsJson(ps, cw, ch).items;
    forall j | 0 <= j < |ps|
      ensures MaskPoint(items[j], fw, fh) == Some(Rescale(ps[j], cw, ch, fw, fh))
    {
      assert items[j] == JArr([JFloat(Normalize(ps[j], cw, ch).x), JFloat(Normalize(ps[j], cw, ch).y)]);
    }
  }

  /** The record saved or sent for a closed shape is accepted and kept by
      the player, and becomes a mask with the shape's rescaled vertices. */
  lemma SentRecordBecomesMask(c: Canvas, s: Shape, fw: int, fh: int, i: nat)
    requires c.width != 0 && c.height != 0 && s.isClosed
    ensures var rec := ShapeToDict(c, s);
      && Accepted(rec, fw, fh) && Kept(rec)
      && MaskOf(rec, i, fw, fh).name == MaskName(i)
      && |MaskOf(rec, i, fw, fh).points| == |s.points|
      && forall j :: 0 <= j < |s.points| ==>
           MaskOf(rec, i, fw, fh).points[j] == Rescale(s.points[j], c.width, c.height, fw, fh)
  {
    PointsArrive(s.points, c.width, c.height, fw, fh);
  }

  /** One mask per shape, in order, named after its position, with every
      vertex moved from a `cw x ch` canvas to a `fw x fh` frame. */
  predicate MasksFromShapes(masks: seq<Mask>, shapes: seq<Shape>, cw: int, ch: int, fw: int, fh: int)
    requires cw != 0 && ch != 0
  {
    && |masks| == |shapes|
    && forall k :: 0 <= k < |shapes| ==>
         && masks[k].name == MaskName(k)
         && |masks[k].points| == |shapes[k].points|
         && forall j :: 0 <= j < |shapes[k].points| ==>
              masks[k].points[j] == Rescale(shapes[k].points[j], cw, ch, fw, fh)
  }

  /** A list of saved records of closed shapes becomes one mask per shape,
      in order, with the shapes' vertices rescaled to the frame. */
  lemma SavedRecordsBecomeMasks(c: Canvas, closed: seq<Shape>, p: Player, data: Json)
    requires c.width != 0 && c.height != 0
    requires forall k :: 0 <= k < |closed| ==> closed[k].isClosed
    requires data.JArr? && |data.items| == |closed|
    requires forall k :: 0 <= k < |closed| ==> data.items[k] == ShapeToDict(c, closed[k])
    ensures SetMaskFromEditor(p, data).Some?
    ensures
      var pl := SetMaskFromEditor(p, data).value;
      pl.applyMask && MasksFromShapes(pl.masks, closed, c.width, c.height, p.width, p.height)
  {
    forall k | 0 <= k < |closed|
      ensures Accepted(data.items[k], p.width, p.height) && Kept(data.items[k])
    {
      SentRecordBecomesMask(c, closed[k], p.width, p.height, k);
    }
    AllClosedBecomeMasks(p, data);
    var masks := SetMaskFromEditor(p, data).value.masks;
    forall k | 0 <= k < |closed|
      ensures
        && masks[k].name == MaskName(k)
        && |masks[k].points| == |closed[k].points|
        && forall j :: 0 <= j < |closed[k].points| ==>
             masks[k].points[j] == Rescale(closed[k].points[j], c.width, c.height, p.width, p.height)
    {
      SentRecordBecomesMask(c, closed[k], p.width, p.height, k);
    }
  }

  /** Sending from a canvas of non-zero size that holds a closed shape
      succeeds, and the player then holds one mask per closed shape, in
      canvas order, named after its position in the payload, with every
      vertex rescaled from the canvas to the frame; masking is on. */
  lemma SentShapesBecomeMasks(c: Canvas, p: Player)
    requires c.width != 0 && c.height != 0
    requires exists i :: 0 <= i < |c.shapes| && c.shapes[i].isClosed
    ensures SendShapes(c, true).1.Sent?
    ensures SetMaskFromEditor(p, SendShapes(c, true).1.payload).Some?
    ensures
      var closed := ClosedShapes(c.shapes);
      var pl := SetMaskFromEditor(p, SendShapes(c, true).1.payload).value;
      pl.applyMask && MasksFromShapes(pl.masks, closed, c.width, c.height, p.width, p.height)
  {
    SentRecordsAreSavedRecords(c);
    var closed := ClosedShapes(c.shapes);
    var payload := SendShapes(c, true).1.payload;
    assert payload.JArr? && |payload.items| == |closed|;
    assert forall k :: 0 <= k < |closed| ==> payload.items[k] == ShapeToDict(c, closed[k]);
    assert forall k :: 0 <= k < |closed| ==> closed[k].isClosed;
    SavedRecordsBecomeMasks(c, closed, p, payload);
  }

  /** Rescaling every vertex of a polygon to the size it already has gives
      the polygon back. */
  lemma RescaledPolygonSameSize(ps: seq<Point>, qs: seq<Point>, w: int, h: int)
    requires w != 0 && h != 0 && |qs| == |ps|
    requires forall j :: 0 <= j < |ps| ==> qs[j] == Rescale(ps[j], w, h, w, h)
    ensures qs == ps
  {
    forall j | 0 <= j < |ps|
      ensures qs[j] == ps[j]
    {
      RescaleSameSize(ps[j], w, h);
    }
  }

  /** When the frame has the canvas's size, every mask is exactly the
      polygon that was drawn. */
  lemma SameSizeKeepsPolygons(c: Canvas, p: Player)
    requires c.width != 0 && c.height != 0
    requires p.width == c.width && p.height == c.height
    requires exists i :: 0 <= i < |c.shapes| && c.shapes[i].isClosed
    ensures SendShapes(c, true).1.Sent?
    ensures SetMaskFromEditor(p, SendShapes(c, true).1.payload).Some?
    ensures
      var closed := ClosedShapes(c.shapes);
      var pl := SetMaskFromEditor(p, SendShapes(c, true).1.payload).value;
      |pl.masks| == |closed| && forall k :: 0 <= k < |closed| ==> pl.masks[k].points == closed[k].points
  {
    SentShapesBecomeMasks(c, p);
    var closed := ClosedShapes(c.shapes);
    var masks := SetMaskFromEditor(p, SendShapes(c, true).1.payload).value.masks;
    forall k | 0 <= k < |closed|
      ensures masks[k].points == closed[k].points
    {
      RescaledPolygonSameSize(closed[k].points, masks[k].points, c.width, c.height);
    }
  }

  /** An update the server receives while the intake queue is empty is
      applied at the next frame, and the queue is empty again. This holds
      for the server as written: a decoded value is enqueued even when
      logging it then kills the server thread. */
  lemma ReceivedUpdateAppliedNextTick(p: Player, chunks: seq<seq<MaskServer.byte>>, decode: MaskServer.Decoder)
    requires MaskServer.Receive(chunks).Closed? && |MaskServer.Receive(chunks).data| > 0
    requires decode(MaskServer.Receive(chunks).data).Parsed?
    ensures var update := decode(MaskServer.Receive(chunks).data).value;
      var q := MaskServer.StepAsWritten([], chunks, decode).0;
      q == [update] &&
      CheckForNewMasks(p, q) == (if Applicable(update, p.width, p.height)
                                 then Some((SetMaskFromEditor(p, update).value, []))
                                 else None)
  {
    var update := decode(MaskServer.Receive(chunks).data).value;
    var empty: seq<Json> := [];
    assert empty + [update] == [update];
  }
}
