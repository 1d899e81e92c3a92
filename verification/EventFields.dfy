/** What a list of input events says about a sample, field by field, without decoding it step by step. */
module EventFields {
  import opened InputEvents
  import opened PacketTimestamp

  /** The event codes of one sensor's fields: four ABS codes, and two REL codes for the halves of the timestamp. */
  datatype Codes = Codes(x: int, y: int, z: int, status: int, hi: int, lo: int)

  /** The value of mAllInputDataCompleteFlag that passes the completeness test. */
  const COMPLETE := 7

  /** The value a field was given last, if it was given one. */
  datatype Given = Never | Last(v: int) {
    function Or(other: int): int { if Never? then other else v }
  }

  function LastGiven(es: seq<InputEvent>, kind: int, code: int): (g: Given) {
    if es == [] then Never else
    var e := es[|es| - 1];
    if e.kind == kind && e.code == code then Last(e.value) else LastGiven(es[..|es| - 1], kind, code)
  }

  predicate IsData(e: InputEvent, c: Codes) { e.kind == EV_ABS && e.code in {c.x, c.y, c.z, c.status} }
  predicate IsLow(e: InputEvent, c: Codes) { e.kind == EV_REL && e.code == c.lo }

  /** Events the decoder takes a field from. */
  predicate Known(e: InputEvent, c: Codes) { IsData(e, c) || IsLow(e, c) || (e.kind == EV_REL && e.code == c.hi) }

  /** The completeness test, said of the events: the known event that came last carried the low timestamp word; or none
      came, and the flag still stood from before. */
  ghost predicate LowCameLast(es: seq<InputEvent>, c: Codes, flag: int) {
    || (exists i :: 0 <= i < |es| && IsLow(es[i], c) && forall j :: i < j < |es| ==> !Known(es[j], c))
    || (flag == COMPLETE && forall j :: 0 <= j < |es| ==> !Known(es[j], c))
  }

  /** One more event: a low word completes, another known event undoes it, and others change nothing. */
  lemma {:induction false} LowAfterOne(es: seq<InputEvent>, e: InputEvent, c: Codes, flag: int)
    ensures LowCameLast(es + [e], c, flag) <==> IsLow(e, c) || (!Known(e, c) && LowCameLast(es, c, flag))
  {
    var more := es + [e];
    assert more[|es|] == e && forall j :: 0 <= j < |es| ==> more[j] == es[j];
  }

  function Scaled(g: Given, stale: Quotient, div: int): Quotient {
    if g.Never? then stale else Quotient(g.v, div)
  }

  /** The timestamp after the events, merged half by half. */
  function Stamp(es: seq<InputEvent>, c: Codes, stale: int): (ts: int) {
    if es == [] then stale else
    var e, ts := es[|es| - 1], Stamp(es[..|es| - 1], c, stale);
    if e.kind == EV_REL && e.code == c.hi then MergeHi(ts, e.value)
    else if e.kind == EV_REL && e.code == c.lo then MergeLo(ts, e.value)
    else ts
  }

  lemma {:induction false} HalvesMerge(ts: int, v: int)
    ensures MergeHi(ts, v) / TWO32 == v && MergeHi(ts, v) % TWO32 == ts % TWO32
    ensures MergeLo(ts, v) / TWO32 == ts / TWO32 && MergeLo(ts, v) % TWO32 == v % TWO32
  {
    assert ts - ts % TWO32 == ts / TWO32 * TWO32;
  }

  /** Each half of it is the one given last, or the stale one. */
  lemma {:induction false} StampHalves(es: seq<InputEvent>, c: Codes, stale: int)
    requires c.hi != c.lo
    ensures Stamp(es, c, stale) / TWO32 == LastGiven(es, EV_REL, c.hi).Or(stale / TWO32)
    ensures Stamp(es, c, stale) % TWO32 == LastGiven(es, EV_REL, c.lo).Or(stale) % TWO32
  {
    if es != [] {
      var init := es[..|es| - 1];
      StampHalves(init, c, stale);
      HalvesMerge(Stamp(init, c, stale), es[|es| - 1].value);
    }
  }

  /** What is pending after the events: each field is the one given last, or the stale one. */
  function Overlaid(es: seq<InputEvent>, c: Codes, p: Sample, div: int): Sample {
    Sample(Scaled(LastGiven(es, EV_ABS, c.x), p.x, div), Scaled(LastGiven(es, EV_ABS, c.y), p.y, div),
           Scaled(LastGiven(es, EV_ABS, c.z), p.z, div), LastGiven(es, EV_ABS, c.status).Or(p.status),
           Stamp(es, c, p.timestamp))
  }
}
