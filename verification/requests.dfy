/**
 * The request side of the driver: subscribe/unsubscribe, publish-topic
 * register/unregister, publish, the state queries and the connectivity
 * commands. Each request first runs the timeout monitor, then writes its AT
 * command (returned as `out`) and moves the slot it addresses to a pending
 * state. A command that expects a bare OK/ERROR bumps the acknowledgement
 * counter.
 */
module Requests {
  import opened Types
  import opened CText
  import opened Hex
  import opened Timeout

  // Pieces of the AT commands the requests write.
  const EmqStart := "AT+EMQ"
  const SubOpenCmd := "SUBOPEN="
  const SubCloseCmd := "SUBCLOSE="
  const PubOpenCmd := "PUBOPEN="
  const PubCloseCmd := "PUBCLOSE="
  const PublishCmd := "PUBLISH="

  /** A `char *` string: it cannot hold a NUL character. */
  predicate IsCString(s: string) {
    forall k :: 0 <= k < |s| ==> s[k] != NUL
  }

  /** Outcome of a request: its return value, the new state and what it wrote. */
  datatype Reply = Reply(result: int, engine: Engine, out: string)

  /** Outcome of a query: the value read and the state after the monitor ran. */
  datatype Query<T> = Query(value: T, engine: Engine)

  /** Lowest index at or after `k` whose flag is set, or -1 when there is none. */
  function FirstFree(free: seq<bool>, k: nat): (r: int)
    requires k <= |free|
    ensures r == -1 || k <= r < |free|
    ensures r == -1 <==> forall j :: k <= j < |free| ==> !free[j]
    ensures r != -1 ==> free[r] && forall j :: k <= j < r ==> !free[j]
    decreases |free| - k
  {
    if k == |free| then -1 else if free[k] then k else FirstFree(free, k + 1)
  }

  function SubFree(subs: seq<SubSlot>): (f: seq<bool>)
    ensures |f| == |subs| && forall i :: 0 <= i < |subs| ==> f[i] == subs[i].state.Free()
  {
    seq(|subs|, i requires 0 <= i < |subs| => subs[i].state.Free())
  }

  function PubFree(pubs: seq<PubSlot>): (f: seq<bool>)
    ensures |f| == |pubs| && forall i :: 0 <= i < |pubs| ==> f[i] == pubs[i].state.Free()
  {
    seq(|pubs|, i requires 0 <= i < |pubs| => pubs[i].state.Free())
  }

  /** `subscribe`: take the lowest free subscribe slot and ask the module to open it. */
  function Subscribe(e: Engine, now: uint32, topic: string, callback: Option<CallbackId>): (r: Reply)
    requires Valid(e) && IsCString(topic)
    ensures Valid(r.engine)
    ensures r.result == -1 || 0 <= r.result < MaxSubTopics
    ensures r.result == -1 <==> forall j :: 0 <= j < MaxSubTopics ==> !e.subs[j].state.Free()
    ensures r.result == -1 ==> r.engine == CheckTimeout(e, now).engine && r.out == []
    ensures r.result != -1 ==>
              && e.subs[r.result].state.Free()
              && (forall j :: 0 <= j < r.result ==> !e.subs[j].state.Free())
              && r.engine.subs == e.subs[r.result := SubSlot(Subscribing, callback)]
              && r.engine.outstandingOk == IncOkReq(e.outstandingOk)
              && r.engine == CheckTimeout(e, now).engine.(subs := r.engine.subs, outstandingOk := r.engine.outstandingOk)
              && r.out == "AT+EMQSUBOPEN=" + Dec(r.result) + ",\"" + topic + "\"\r\n"
  {
    var t := CheckTimeout(e, now).engine;
    assert t.subs == e.subs;
    var i := FirstFree(SubFree(t.subs), 0);
    if i == -1 then Reply(-1, t, [])
    else
      assert EmqStart + SubOpenCmd == "AT+EMQSUBOPEN=";
      var out := EmqStart + SubOpenCmd + Dec(i) + ",\"" + topic + "\"\r\n";
      Reply(i, t.(subs := t.subs[i := SubSlot(Subscribing, callback)], outstandingOk := IncOkReq(t.outstandingOk)), out)
  }

  /** `substate`: the state of one subscribe slot. */
  function SubStateOf(e: Engine, now: uint32, idx: int): (r: Query<SubState>)
    requires Valid(e) && 0 <= idx < MaxSubTopics
    ensures Valid(r.engine)
    ensures r.value == e.subs[idx].state
    ensures r.engine == CheckTimeout(e, now).engine
  {
    var t := CheckTimeout(e, now).engine;
    Query(t.subs[idx].state, t)
  }

  /** `unsubscribe`: ask the module to close a subscribed slot. */
  function Unsubscribe(e: Engine, now: uint32, idx: int): (r: Reply)
    requires Valid(e) && 0 <= idx
    ensures Valid(r.engine)
    ensures r.result == 0 || r.result == -1
    ensures r.result == 0 <==> idx < MaxSubTopics && e.subs[idx].state == Subscribed
    ensures r.result == -1 ==> r.engine == CheckTimeout(e, now).engine && r.out == []
    ensures r.result == 0 ==>
              && r.engine.subs == e.subs[idx := e.subs[idx].(state := Unsubscribing)]
              && r.engine.outstandingOk == IncOkReq(e.outstandingOk)
              && r.engine == CheckTimeout(e, now).engine.(subs := r.engine.subs, outstandingOk := r.engine.outstandingOk)
              && r.out == "AT+EMQSUBCLOSE=" + Dec(idx) + "\r\n"
  {
    var t := CheckTimeout(e, now).engine;
    if idx >= MaxSubTopics then Reply(-1, t, [])
    else if t.subs[idx].state == Subscribed then
      assert EmqStart + SubCloseCmd == "AT+EMQSUBCLOSE=";
      var out := EmqStart + SubCloseCmd + Dec(idx) + "\r\n";
      Reply(0, t.(subs := t.subs[idx := t.subs[idx].(state := Unsubscribing)], outstandingOk := IncOkReq(t.outstandingOk)), out)
    else Reply(-1, t, [])
  }

  /** `pubreg`: take the lowest free publish slot, after the monitor ran, and register it. */
  function PubReg(e: Engine, now: uint32, topic: string): (r: Reply)
    requires Valid(e) && IsCString(topic)
    ensures Valid(r.engine)
    ensures r.result == -1 || 0 <= r.result < MaxPubTopics
    ensures var t := CheckTimeout(e, now).engine;
            && (r.result == -1 <==> forall j :: 0 <= j < MaxPubTopics ==> !t.pubs[j].state.Free())
            && (r.result == -1 ==> r.engine == t && r.out == [])
            && (r.result != -1 ==>
                  && t.pubs[r.result].state.Free()
                  && (forall j :: 0 <= j < r.result ==> !t.pubs[j].state.Free())
                  && r.engine.pubs == t.pubs[r.result := PubSlot(Registering, now)]
                  && r.engine.outstandingOk == IncOkReq(e.outstandingOk)
                  && r.engine == t.(pubs := r.engine.pubs, outstandingOk := r.engine.outstandingOk)
                  && r.out == "AT+EMQPUBOPEN=" + Dec(r.result) + ",\"" + topic + "\"\r\n")
  {
    var t := CheckTimeout(e, now).engine;
    var i := FirstFree(PubFree(t.pubs), 0);
    if i == -1 then Reply(-1, t, [])
    else
      assert EmqStart + PubOpenCmd == "AT+EMQPUBOPEN=";
      var out := EmqStart + PubOpenCmd + Dec(i) + ",\"" + topic + "\"\r\n";
      Reply(i, t.(pubs := t.pubs[i := PubSlot(Registering, now)], outstandingOk := IncOkReq(t.outstandingOk)), out)
  }

  /** `pubstate`: the state of one publish slot, after the monitor ran. */
  function PubStateOf(e: Engine, now: uint32, idx: int): (r: Query<PubState>)
    requires Valid(e) && 0 <= idx < MaxPubTopics
    ensures Valid(r.engine)
    ensures r.value == if Expired(e.pubs[idx], now) then PubError else e.pubs[idx].state
    ensures r.engine == CheckTimeout(e, now).engine
  {
    var t := CheckTimeout(e, now).engine;
    Query(t.pubs[idx].state, t)
  }

  /** `pubunreg`: ask the module to unregister a registered publish slot. */
  function PubUnreg(e: Engine, now: uint32, idx: int): (r: Reply)
    requires Valid(e) && 0 <= idx
    ensures Valid(r.engine)
    ensures r.result == 0 || r.result == -1
    ensures r.result == 0 <==> idx < MaxPubTopics && e.pubs[idx].state == Registered
    ensures r.result == -1 ==> r.engine == CheckTimeout(e, now).engine && r.out == []
    ensures r.result == 0 ==>
              && r.engine.pubs == CheckTimeout(e, now).engine.pubs[idx := PubSlot(Unregistering, now)]
              && r.engine.outstandingOk == IncOkReq(e.outstandingOk)
              && r.engine == CheckTimeout(e, now).engine.(pubs := r.engine.pubs, outstandingOk := r.engine.outstandingOk)
              && r.out == "AT+EMQPUBCLOSE=" + Dec(idx) + "\r\n"
  {
    var t := CheckTimeout(e, now).engine;
    if idx >= MaxPubTopics then Reply(-1, t, [])
    else if t.pubs[idx].state == Registered then
      assert EmqStart + PubCloseCmd == "AT+EMQPUBCLOSE=";
      var out := EmqStart + PubCloseCmd + Dec(idx) + "\r\n";
      Reply(0, t.(pubs := t.pubs[idx := PubSlot(Unregistering, now)], outstandingOk := IncOkReq(t.outstandingOk)), out)
    else Reply(-1, t, [])
  }

  /**
   * `publish`: on a registered slot, write the payload as hexadecimal; on any
   * other slot do nothing. It reports 0 either way.
   */
  function Publish(e: Engine, now: uint32, tpcidx: int, qos: uint8, data: seq<uint8>): (r: Reply)
    requires Valid(e) && 0 <= tpcidx
    requires |data| < 0x1_0000   // datalen is a uint16_t
    ensures Valid(r.engine)
    ensures r.result == 0
    ensures r.out != [] <==> tpcidx < MaxPubTopics && e.pubs[tpcidx].state == Registered
    ensures r.out == [] ==> r.engine == CheckTimeout(e, now).engine
    ensures r.out != [] ==>
              && r.out == "AT+EMQPUBLISH=" + Dec(tpcidx) + "," + Dec(qos) + ",\"" + HexEncode(data) + "\"\r\n"
              && |r.out| == 14 + |Dec(tpcidx)| + 1 + |Dec(qos)| + 2 + 2 * |data| + 3
              && r.engine == CheckTimeout(e, now).engine.(outstandingOk := IncOkReq(e.outstandingOk))
  {
    var t := CheckTimeout(e, now).engine;
    if tpcidx < MaxPubTopics && t.pubs[tpcidx].state == Registered then
      assert EmqStart + PublishCmd == "AT+EMQPUBLISH=";
      var out := EmqStart + PublishCmd + Dec(tpcidx) + "," + Dec(qos) + ",\"" + HexEncode(data) + "\"\r\n";
      Reply(0, t.(outstandingOk := IncOkReq(t.outstandingOk)), out)
    else Reply(0, t, [])
  }

  /** Kinds of state report `updateState` can ask for. */
  datatype StateRequest = StateOnce | StateOn | StateOff

  /** `updateState`: ask for one report, or switch continuous reports on or off. */
  function UpdateState(e: Engine, req: StateRequest): (r: Reply)
    requires Valid(e)
    ensures Valid(r.engine)
    ensures r.engine.outstandingOk == IncOkReq(e.outstandingOk)
    ensures r.engine.currentState == if req == StateOnce then EtmUnknown.Code() else e.currentState
    ensures r.engine == e.(outstandingOk := r.engine.outstandingOk, currentState := r.engine.currentState)
    ensures r.out == match req
                     case StateOnce => "AT+ETMSTATE?\r\n"
                     case StateOn => "AT+ETMSTATE=1\r\n"
                     case StateOff => "AT+ETMSTATE=0\r\n"
  {
    var e1 := e.(outstandingOk := IncOkReq(e.outstandingOk));
    if req == StateOnce then Reply(0, e1.(currentState := EtmUnknown.Code()), "AT+ETMSTATE?\r\n")
    else if req == StateOn then Reply(0, e1, "AT+ETMSTATE=1\r\n")
    else Reply(0, e1, "AT+ETMSTATE=0\r\n")
  }

  // Codes of the `tetmProto` argument of `startproto`.
  const ProtoMqtt: int := 0
  const ProtoUdp: int := 1

  /** `startproto`: start the MQTT or UDP service; any other code is refused with -1. */
  function StartProto(e: Engine, proto: int): (r: Reply)
    requires Valid(e)
    ensures Valid(r.engine)
    ensures r.result == 0 <==> proto == ProtoMqtt || proto == ProtoUdp
    ensures r.result != 0 ==> r.result == -1 && r.engine == e && r.out == []
    ensures r.result == 0 ==> r.engine == e.(outstandingOk := IncOkReq(e.outstandingOk))
    ensures proto == ProtoMqtt ==> r.out == "AT+ETMSTATE=startmqtt\r\n"
    ensures proto == ProtoUdp ==> r.out == "AT+ETMSTATE=startudp\r\n"
  {
    if proto == ProtoMqtt then Reply(0, e.(outstandingOk := IncOkReq(e.outstandingOk)), "AT+ETMSTATE=startmqtt\r\n")
    else if proto == ProtoUdp then Reply(0, e.(outstandingOk := IncOkReq(e.outstandingOk)), "AT+ETMSTATE=startudp\r\n")
    else Reply(-1, e, [])
  }
}
