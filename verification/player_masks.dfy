/** The player's mask state (`VideoMaskPlayer` in main.py): the active
    pixel masks, the masking switch, and how an incoming shape list
    replaces them. */
module PlayerMasks {
  import opened Outcome
  import opened PyJson
  import opened Coordinates
  import Decimal

  /** One active mask: pixel polygon, display name, origin tag. */
  datatype Mask = Mask(points: seq<Point>, name: string, file: string)

  /** `width`/`height` are the video frame size the masks are scaled to. */
  datatype Player = Player(masks: seq<Mask>, applyMask: bool, width: int, height: int)

  /** The player before any video is loaded: no masks, masking off, and
      the default 1280x720 frame size. */
  function InitialPlayer(): (p: Player)
    ensures p.masks == [] && !p.applyMask && p.width == 1280 && p.height == 720
  {
    Player([], false, 1280, 720)
  }

  /** `f"Editor_Shape_{i+1}"`: the name of the mask made from record `i`. */
  function MaskName(i: nat): string {
    "Editor_Shape_" + Decimal.Digits(i + 1)
  }

  /** The name is the prefix followed by the record's 1-based position in
      decimal: reading the digits back gives `i + 1`. */
  lemma MaskNameNumbersFromOne(i: nat)
    ensures |MaskName(i)| > 13 && MaskName(i)[..13] == "Editor_Shape_"
    ensures var digits := MaskName(i)[13..];
      (forall k :: 0 <= k < |digits| ==> Decimal.IsDigit(digits[k])) && Decimal.Value(digits) == i + 1
  {
    assert MaskName(i)[13..] == Decimal.Digits(i + 1);
    Decimal.ValueOfDigits(i + 1);
  }

  /** Records at different positions give masks different names. */
  lemma MaskNamesDistinct(i: nat, j: nat)
    requires i != j
    ensures MaskName(i) != MaskName(j)
  {
    if MaskName(i) == MaskName(j) {
      var n := |"Editor_Shape_"|;
      assert Decimal.Digits(i + 1) == MaskName(i)[n..];
      assert Decimal.Digits(j + 1) == MaskName(j)[n..];
      Decimal.DigitsInjective(i + 1, j + 1);
    }
  }

  /** One `x, y` of `for x, y in points_list`, turned into
      `[int(x * width), int(y * height)]`; `None` when the element does not
      unpack into two numbers. */
  function MaskPoint(j: Json, w: int, h: int): (r: Option<Point>)
    ensures r.Some? <==>
      j.JArr? && |j.items| == 2 && AsNumber(j.items[0]).Some? && AsNumber(j.items[1]).Some?
    // the pair read as fractions of the frame, then scaled and truncated
    ensures r.Some? ==>
      r.value == Denormalize(NormPoint(AsNumber(j.items[0]).value, AsNumber(j.items[1]).value), w, h)
  {
    if j.JArr? && |j.items| == 2 && AsNumber(j.items[0]).Some? && AsNumber(j.items[1]).Some? then
      Some(Denormalize(NormPoint(AsNumber(j.items[0]).value, AsNumber(j.items[1]).value), w, h))
    else None
  }

  /** The pixel polygon of a record's `points` value. */
  function MaskPoints(pj: Json, w: int, h: int): (r: Option<seq<Point>>)
    ensures r.Some? <==>
      (Iterate(pj).Some? &&
       forall i :: 0 <= i < |Iterate(pj).value| ==> MaskPoint(Iterate(pj).value[i], w, h).Some?)
    ensures r.Some? ==> |r.value| == |Iterate(pj).value|
    ensures r.Some? ==>
      forall i :: 0 <= i < |r.value| ==> MaskPoint(Iterate(pj).value[i], w, h) == Some(r.value[i])
  {
    match Iterate(pj)
    case None => None
    case Some(items) => MapAll(items, (j: Json) => MaskPoint(j, w, h))
  }

  /** A record `shape_data.get('is_closed')` finds truthy. */
  predicate Kept(rec: Json) {
    rec.JObj? && Truthy(GetOr(rec.fields, "is_closed", JNull))
  }

  /** Processing the record does not raise: it is an object and, when
      kept, has a `points` list of number pairs. */
  predicate Accepted(rec: Json, w: int, h: int) {
    && rec.JObj?
    && (Kept(rec) ==>
          Get(rec.fields, "points").Some? && MaskPoints(Get(rec.fields, "points").value, w, h).Some?)
  }

  /** The mask built from record `i`, whose points convert. */
  function MaskOf(rec: Json, i: nat, w: int, h: int): (m: Mask)
    requires rec.JObj? && Get(rec.fields, "points").Some?
    requires MaskPoints(Get(rec.fields, "points").value, w, h).Some?
    ensures m.name == MaskName(i) && m.file == "Editor"
    ensures Some(m.points) == MaskPoints(Get(rec.fields, "points").value, w, h)
  {
    Mask(MaskPoints(Get(rec.fields, "points").value, w, h).value, MaskName(i), "Editor")
  }

  /** One iteration of the loop of `set_mask_from_editor` on record `i`:
      raise (`None`), skip an open record, or make its mask. */
  function MaskStep(i: nat, rec: Json, w: int, h: int): (r: Option<Option<Mask>>)
    ensures r.Some? <==> Accepted(rec, w, h)
    ensures r.Some? ==> (r.value.Some? <==> Kept(rec))
  {
    if !Accepted(rec, w, h) then None
    else if Kept(rec) then Some(Some(MaskOf(rec, i, w, h)))
    else Some(None)
  }

  /** The loop body at frame size `w x h`. */
  function MaskSteps(w: int, h: int): (nat, Json) -> Option<Option<Mask>> {
    (i: nat, rec: Json) => MaskStep(i, rec, w, h)
  }

  /** Positions of the kept records, in order. */
  function KeptIndices(recs: seq<Json>, w: int, h: int): (r: seq<nat>)
    requires forall i :: 0 <= i < |recs| ==> Accepted(recs[i], w, h)
    ensures forall k :: 0 <= k < |r| ==> r[k] < |recs| && Kept(recs[r[k]])
    ensures forall k, l :: 0 <= k < l < |r| ==> r[k] < r[l]
    ensures forall i :: 0 <= i < |recs| && Kept(recs[i]) ==> i in r
  {
    PositionsKept(recs, 0, MaskSteps(w, h));
    Positions(recs, 0, MaskSteps(w, h))
  }

  /** When every record is closed, every record becomes a mask. */
  lemma AllKeptIndices(recs: seq<Json>, w: int, h: int)
    requires forall i :: 0 <= i < |recs| ==> Accepted(recs[i], w, h) && Kept(recs[i])
    ensures |KeptIndices(recs, w, h)| == |recs|
    ensures forall k :: 0 <= k < |recs| ==> KeptIndices(recs, w, h)[k] == k
  {
    PositionsAllKept(recs, 0, MaskSteps(w, h));
  }

  /** The incoming value can be processed without raising at this frame size. */
  predicate Applicable(data: Json, w: int, h: int) {
    Iterate(data).Some? &&
    forall i :: 0 <= i < |Iterate(data).value| ==> Accepted(Iterate(data).value[i], w, h)
  }

  /** `set_mask_from_editor`: the mask list is replaced wholesale by one
      mask per record whose `is_closed` is truthy, in input order, with
      coordinates scaled to the frame and truncated and the name taken from
      the record's position in the input; masking is switched on even when
      no mask was kept. `None` is an exception escaping the call, which
      ends the player. */
  function SetMaskFromEditor(p: Player, data: Json): (r: Option<Player>)
    ensures r.Some? <==> Applicable(data, p.width, p.height)
    ensures r.Some? ==> r.value.applyMask && r.value.width == p.width && r.value.height == p.height
    ensures r.Some? ==>
      var recs := Iterate(data).value;
      var idx := KeptIndices(recs, p.width, p.height);
      && |r.value.masks| == |idx|
      && forall k :: 0 <= k < |idx| ==> r.value.masks[k] == MaskOf(recs[idx[k]], idx[k], p.width, p.height)
  {
    match Iterate(data)
    case None => None
    case Some(recs) =>
      var step := MaskSteps(p.width, p.height);
      assert forall i :: 0 <= i < |recs| ==> (step(i, recs[i]).Some? <==> Accepted(recs[i], p.width, p.height));
      match FilterMapAll(recs, 0, step)
      case None => None
      case Some(ms) =>
        forall k | 0 <= k < |ms|
          ensures ms[k] == MaskOf(recs[KeptIndices(recs, p.width, p.height)[k]], KeptIndices(recs, p.width, p.height)[k], p.width, p.height)
        {
          FilterMapAllAt(recs, 0, step, k);
        }
        Some(p.(masks := ms, applyMask := true))
  }

  /** When every record is closed and well formed, the k-th mask is made
      from the k-th record. */
  lemma AllClosedBecomeMasks(p: Player, data: Json)
    requires data.JArr?
    requires forall i :: 0 <= i < |data.items| ==>
      Accepted(data.items[i], p.width, p.height) && Kept(data.items[i])
    ensures SetMaskFromEditor(p, data).Some?
    ensures var masks := SetMaskFromEditor(p, data).value.masks;
      |masks| == |data.items| &&
      forall k :: 0 <= k < |data.items| ==> masks[k] == MaskOf(data.items[k], k, p.width, p.height)
  {
    AllKeptIndices(data.items, p.width, p.height);
  }

  /** Replacement is wholesale: the outcome does not depend on the masks or
      the switch that were active before. */
  lemma ReplacementForgetsPrevious(p1: Player, p2: Player, data: Json)
    requires p1.width == p2.width && p1.height == p2.height
    ensures SetMaskFromEditor(p1, data) == SetMaskFromEditor(p2, data)
  {
  }

  /** `check_for_new_masks`: takes at most one item from the front of the
      queue and applies it; an empty queue changes nothing. */
  function CheckForNewMasks(p: Player, q: seq<Json>): (r: Option<(Player, seq<Json>)>)
    ensures |q| == 0 ==> r == Some((p, q))
    ensures |q| > 0 ==> (r.Some? <==> Applicable(q[0], p.width, p.height))
    ensures |q| > 0 && r.Some? ==> r.value.1 == q[1..] && r.value.0 == SetMaskFromEditor(p, q[0]).value
  {
    if |q| == 0 then Some((p, q))
    else
      match SetMaskFromEditor(p, q[0])
      case None => None
      case Some(p') => Some((p', q[1..]))
  }

  /** `toggle_mask`: flips the switch and leaves the masks alone. */
  function ToggleMask(p: Player): (r: Player)
    ensures r.applyMask == !p.applyMask
    ensures r.masks == p.masks && r.width == p.width && r.height == p.height
  {
    p.(applyMask := !p.applyMask)
  }

  /** Toggling twice restores the original state. */
  lemma ToggleTwice(p: Player)
    ensures ToggleMask(ToggleMask(p)) == p
  {
  }

  /** `n` successive queue checks, one per rendered frame, with nothing
      pushed in between. */
  function Ticks(p: Player, q: seq<Json>, n: nat): Option<(Player, seq<Json>)>
    decreases n
  {
    if n == 0 then Some((p, q))
    else
      match CheckForNewMasks(p, q)
      case None => None
      case Some(next) => Ticks(next.0, next.1, n - 1)
  }

  /** A backlog of `|q|` updates is consumed over `|q|` frames, one per
      frame in FIFO order; when every update can be applied, the state left
      active is the one the last update alone would produce. */
  lemma {:induction false} DrainKeepsLast(p: Player, q: seq<Json>)
    requires |q| > 0
    requires forall i :: 0 <= i < |q| ==> Applicable(q[i], p.width, p.height)
    ensures Ticks(p, q, |q|) == Some((SetMaskFromEditor(p, q[|q| - 1]).value, []))
    decreases |q|
  {
    var p' := SetMaskFromEditor(p, q[0]).value;
    assert CheckForNewMasks(p, q) == Some((p', q[1..]));
    if |q| == 1 {
      assert Ticks(p', q[1..], 0) == Some((p', []));
    } else {
      DrainKeepsLast(p', q[1..]);
      assert q[1..][|q[1..]| - 1] == q[|q| - 1];
      assert SetMaskFromEditor(p', q[|q| - 1]) == SetMaskFromEditor(p, q[|q| - 1]);
    }
  }
}
