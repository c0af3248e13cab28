/** The mask-related part of one iteration of the player's render loop
    (`VideoMaskPlayer.run` in main.py): poll the intake queue once, then
    show the current frame, composited when masking is on and masks exist.
    Reading frames, key handling and windowing are not modelled: the frame
    to show is a parameter, `None` before the first frame was read. */
module RenderLoop {
  import opened Outcome
  import opened PyJson
  import opened PlayerMasks
  import opened Compositor

  /** The state after one iteration and the frame it displayed, if any. */
  datatype Tick = Tick(player: Player, queue: seq<Json>, shown: Option<Frame>)

  /** One iteration of the render loop. `None` is an exception escaping
      the loop, which ends the player. */
  method RenderTick(p: Player, q: seq<Json>, frame: Option<Frame>, inside: Fill) returns (r: Option<Tick>)
    // at most one queued update is taken per iteration, from the front
    ensures r.Some? ==> r.value.queue == (if |q| == 0 then q else q[1..])
    ensures r.Some? && |q| == 0 ==> r.value.player == p
    ensures r.Some? && |q| > 0 ==> Some(r.value.player) == SetMaskFromEditor(p, q[0])
    ensures |q| > 0 && !Applicable(q[0], p.width, p.height) ==> r.None?
    // the loop ends exactly when applying the update raises or compositing does
    ensures r.None? <==>
      || CheckForNewMasks(p, q).None?
      || (frame.Some? &&
          var pl := CheckForNewMasks(p, q).value.0;
          pl.applyMask && |pl.masks| > 0 && !(p.width >= 0 && p.height >= 0 && Shaped(frame.value, p.width, p.height)))
    // nothing is shown until a frame has been read
    ensures r.Some? ==> (r.value.shown.Some? <==> frame.Some?)
    // the frame is shown as read unless masking is on and there are masks
    ensures r.Some? && frame.Some? && (!r.value.player.applyMask || |r.value.player.masks| == 0) ==>
      r.value.shown == frame
    ensures r.Some? && frame.Some? && r.value.player.applyMask && |r.value.player.masks| > 0 ==>
      var pl := r.value.player;
      pl.width >= 0 && pl.height >= 0 && Shaped(frame.value, pl.width, pl.height) &&
      Composites(r.value.shown.value, frame.value, pl.masks, pl.width, pl.height, inside)
  {
    var checked := CheckForNewMasks(p, q);
    if checked.None? {
      return None;
    }
    var (p', q') := checked.value;
    if frame.None? {
      return Some(Tick(p', q', None));
    }
    var shown := frame.value;
    if p'.applyMask && |p'.masks| > 0 {
      var out := ApplyAllMasks(p', shown, inside);
      if out.None? {
        return None;
      }
      shown := out.value;
    }
    r := Some(Tick(p', q', Some(shown)));
  }
}
