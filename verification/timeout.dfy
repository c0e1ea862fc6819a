/**
 * `checkTimeout`: the monitor that forces publish slots stuck in a pending
 * state past the timeout into the error state. Subscribe slots carry no
 * timestamp and are never touched.
 */
module Timeout {
  import opened Types

  /** `now - senttime` in `unsigned long` arithmetic: the clock wraps at 2^32. */
  function Elapsed(now: uint32, sent: uint32): (d: uint32)
    ensures now >= sent ==> d == now - sent
    ensures now < sent ==> d == now + 0x1_0000_0000 - sent
  {
    (now - sent) % 0x1_0000_0000
  }

  /** A pending slot whose request is at least the timeout old. */
  predicate Expired(p: PubSlot, now: uint32) {
    p.state.Pending() && Elapsed(now, p.sentTime) >= PubTimeout
  }

  /** A pending slot still within its time. */
  predicate Waiting(p: PubSlot, now: uint32) {
    p.state.Pending() && Elapsed(now, p.sentTime) < PubTimeout
  }

  datatype Scan = Scan(pubs: seq<PubSlot>, waiting: bool)

  /** The monitor's loop over the slots from index `k` on. */
  function ScanFrom(pubs: seq<PubSlot>, now: uint32, k: nat): (r: Scan)
    requires k <= |pubs|
    ensures |r.pubs| == |pubs|
    ensures r.pubs[..k] == pubs[..k]
    ensures forall i :: k <= i < |pubs| && Expired(pubs[i], now) ==> r.pubs[i] == pubs[i].(state := PubError)
    ensures forall i :: k <= i < |pubs| && !Expired(pubs[i], now) ==> r.pubs[i] == pubs[i]
    ensures r.waiting <==> exists i :: k <= i < |pubs| && Waiting(pubs[i], now)
    decreases |pubs| - k
  {
    if k == |pubs| then Scan(pubs, false)
    else
      var p := pubs[k];
      var here := if Expired(p, now) then pubs[k := p.(state := PubError)] else pubs;
      var rest := ScanFrom(here, now, k + 1);
      Scan(rest.pubs, rest.waiting || Waiting(p, now))
  }

  datatype Checked = Checked(engine: Engine, waiting: bool)

  /** `checkTimeout`, run at the start of every request and of every poll. */
  function CheckTimeout(e: Engine, now: uint32): (r: Checked)
    requires Valid(e)
    ensures Valid(r.engine)
    ensures r.engine == e.(pubs := r.engine.pubs)
    ensures forall i :: 0 <= i < |e.pubs| ==>
              r.engine.pubs[i] == if Expired(e.pubs[i], now) then e.pubs[i].(state := PubError) else e.pubs[i]
    ensures r.waiting <==> exists i :: 0 <= i < |e.pubs| && Waiting(e.pubs[i], now)
  {
    var s := ScanFrom(e.pubs, now, 0);
    Checked(e.(pubs := s.pubs), s.waiting)
  }

  /** Running the monitor twice at the same instant changes nothing more. */
  lemma CheckTimeoutIdempotent(e: Engine, now: uint32)
    requires Valid(e)
    ensures CheckTimeout(CheckTimeout(e, now).engine, now).engine == CheckTimeout(e, now).engine
    ensures CheckTimeout(CheckTimeout(e, now).engine, now).waiting == CheckTimeout(e, now).waiting
  {
    var e1 := CheckTimeout(e, now).engine;
    var e2 := CheckTimeout(e1, now).engine;
    assert forall i :: 0 <= i < |e1.pubs| ==> !Expired(e1.pubs[i], now);
    assert e2.pubs == e1.pubs;
  }

  /** A slot left alone is timed out once the deadline has passed, and not before. */
  lemma PendingSlotDeadline(e: Engine, i: nat, now: uint32)
    requires Valid(e) && i < MaxPubTopics
    requires e.pubs[i].state == Registering
    ensures CheckTimeout(e, now).engine.pubs[i].state == PubError
            <==> Elapsed(now, e.pubs[i].sentTime) >= PubTimeout
  {
  }
}
