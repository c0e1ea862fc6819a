/**
 * Requests and notifications together: what the driver's state looks like
 * once the module has answered a request, or once a message announced by a
 * header has been read off the serial line.
 */
module Scenarios {
  import opened Types
  import opened CText
  import opened Timeout
  import opened Classifier
  import opened ClassifierFacts
  import opened Framer
  import opened Requests
  import opened Hex

  /**
   * A subscribe request that found a slot, answered by a successful OPEN
   * result for that slot, leaves the slot subscribed with the callback the
   * caller gave; the other slots keep what the request left them.
   */
  lemma SubscribeThenOpened(e: Engine, now: uint32, topic: string, callback: Option<CallbackId>, err: int)
    requires Valid(e) && IsCString(topic)
    requires err == 0 || err == -2
    ensures var r := Subscribe(e, now, topic, callback);
            r.result != -1 ==>
              var d := Dispatch(r.engine, OpenLine(true, r.result, err));
              && d.Done?
              && d.engine.subs[r.result] == SubSlot(Subscribed, callback)
              && (forall j :: 0 <= j < MaxSubTopics && j != r.result ==> d.engine.subs[j] == e.subs[j])
  {
    var r := Subscribe(e, now, topic, callback);
    if r.result != -1 {
      DispatchSubOpen(r.engine, r.result, err);
    }
  }

  /**
   * Two subscribe requests in a row get different slots, the second a higher
   * one than the first: indices are handed out lowest first and never twice.
   */
  lemma SubscribeTwice(e: Engine, now1: uint32, now2: uint32, t1: string, t2: string,
                       cb1: Option<CallbackId>, cb2: Option<CallbackId>)
    requires Valid(e) && IsCString(t1) && IsCString(t2)
    ensures var r1 := Subscribe(e, now1, t1, cb1);
            var r2 := Subscribe(r1.engine, now2, t2, cb2);
            r1.result != -1 && r2.result != -1 ==> r1.result < r2.result
  {
    var r1 := Subscribe(e, now1, t1, cb1);
    var r2 := Subscribe(r1.engine, now2, t2, cb2);
    if r1.result != -1 && r2.result != -1 {
      assert !r1.engine.subs[r1.result].state.Free();
      assert forall j :: 0 <= j < r1.result ==> !r1.engine.subs[j].state.Free();
    }
  }

  /**
   * On an empty subscribe table, subscribing to "sensors/temp" takes slot 0
   * and writes `AT+EMQSUBOPEN=0,"sensors/temp"` (the module's success
   * answer then leaves it subscribed, by `SubscribeThenOpened`).
   */
  lemma FirstSubscribe(e: Engine, now: uint32, callback: Option<CallbackId>)
    requires Valid(e)
    requires forall j :: 0 <= j < MaxSubTopics ==> e.subs[j].state == SubNotInUse
    ensures var r := Subscribe(e, now, "sensors/temp", callback);
            && r.result == 0
            && r.out == "AT+EMQSUBOPEN=0,\"sensors/temp\"\r\n"
            && r.engine.subs[0] == SubSlot(Subscribing, callback)
  {
    assert e.subs[0].state.Free();
    SubOpenText();
  }

  lemma SubOpenText()
    ensures "AT+EMQSUBOPEN=" + Dec(0) + ",\"" + "sensors/temp" + "\"\r\n" == "AT+EMQSUBOPEN=0,\"sensors/temp\"\r\n"
  {
    assert Dec(0) == "0";
  }

  /**
   * Publishing the three bytes 1, 2, 3 with QoS 1 on registered slot 2
   * writes exactly `AT+EMQPUBLISH=2,1,"010203"`.
   */
  lemma PublishThreeBytes(e: Engine, now: uint32)
    requires Valid(e) && e.pubs[2].state == Registered
    ensures Publish(e, now, 2, 1, [0x01, 0x02, 0x03]).out == "AT+EMQPUBLISH=2,1,\"010203\"\r\n"
  {
    PublishText();
  }

  lemma PublishText()
    ensures "AT+EMQPUBLISH=" + Dec(2) + "," + Dec(1) + ",\"" + HexEncode([0x01, 0x02, 0x03]) + "\"\r\n"
         == "AT+EMQPUBLISH=2,1,\"010203\"\r\n"
  {
    OctetToHexExamples();
    assert Dec(2) == "2" && Dec(1) == "1";
  }

  /**
   * A registration the module never answers: the slot is put into the error
   * state by the first monitor run at least the publish timeout after the
   * request, and not by an earlier one (the clock read modulo 2^32).
   */
  lemma PubRegUnanswered(e: Engine, now: uint32, topic: string, later: uint32)
    requires Valid(e) && IsCString(topic)
    ensures var r := PubReg(e, now, topic);
            r.result != -1 ==>
              (CheckTimeout(r.engine, later).engine.pubs[r.result].state == PubError
               <==> Elapsed(later, now) >= PubTimeout)
  {
    var r := PubReg(e, now, topic);
    if r.result != -1 {
      PendingSlotDeadline(r.engine, r.result, later);
    }
  }

  /** A complete text line taken for a message header arms the binary reader and changes nothing else about the topics. */
  lemma LineRead(e: Engine, line: seq<Octet>, idx: uint8, len: uint8) returns (e2: Engine)
    requires Valid(e) && e.binaryRead == 0 && e.rxBufIdx == 0
    requires 2 <= |line| <= RxBufSize && line[0] != CR && line[|line| - 1] == LF
    requires forall j :: 0 <= j < |line| - 1 ==> line[j] != LF
    requires Classify(line, e.outstandingOk) == MessageHeader(idx, len)
    ensures Run(e, line) == Done(e2, "", [])
    ensures Valid(e2) && e2.rxBufIdx == 0 && e2.binaryRead == len && e2.readingSub == idx
    ensures e2.buffered == e.buffered && e2.subs == e.subs && e2.pubs == e.pubs
  {
    RunLine(e, line);
    var e1 := e.(buf := Fill(e.buf, 0, line), rxBufIdx := |line| - 1);
    var u := MessageHeader(idx, len);
    ApplySlots(e1, u, line);
    ApplyBlock(e1, u, line);
    ApplyOutputs(e1, u, line);
    e2 := Dispatch(e1, line).engine;
  }

  /**
   * A message header for a slot and a length below 256, read from an idle
   * text frame, arms the binary reader for that slot and length.
   */
  lemma HeaderRead(e: Engine, line: seq<Octet>, idx: nat, len: nat) returns (e2: Engine)
    requires Valid(e) && e.binaryRead == 0 && e.rxBufIdx == 0
    requires idx < 0x100 && len < 0x100 && line == HeaderLine(idx, len)
    ensures Run(e, line) == Done(e2, "", [])
    ensures Valid(e2) && e2.rxBufIdx == 0 && e2.binaryRead == len && e2.readingSub == idx
    ensures e2.buffered == e.buffered && e2.subs == e.subs && e2.pubs == e.pubs
  {
    HeaderLineFrame(idx, len);
    ClassifyHeaderLine(idx, len, e.outstandingOk);
    SmallLength(len);
    SmallLength(idx);
    e2 := LineRead(e, line, idx, len);
  }

  /** Bytes that leave the binary reader armed for a slot with a callback, followed by the whole block. */
  lemma ThenBlock(e: Engine, line: seq<Octet>, e2: Engine, block: seq<Octet>)
    requires Valid(e) && Run(e, line) == Done(e2, "", [])
    requires Valid(e2) && e2.rxBufIdx == 0 && 0 < |block| <= RxBufSize && e2.binaryRead == |block|
    requires e2.readingSub < MaxSubTopics && e2.subs[e2.readingSub].callback.Some?
    ensures var r := Run(e, line + block);
            && r.Done? && r.out == ""
            && r.events == [Deliver(e2.readingSub, r.engine.buf, (e2.buffered + |block|) % 0x100)]
            && r.engine.buf[..|block|] == block
            && r.engine.binaryRead == 0 && r.engine.readingSub == NoReadingSub
            && r.engine.subs == e2.subs && r.engine.pubs == e2.pubs
  {
    RunAppend(e, line, block);
    JoinNothing(Run(e2, block));
    RunBlock(e2, block);
  }

  /**
   * A message header for a slot with a callback, followed by the L bytes it
   * announces (L at most the buffer size), read from an idle text frame: the
   * callback runs once, with the buffer holding exactly those bytes first and
   * the running count, and nothing is written or forwarded.
   */
  lemma {:induction false} HeaderThenBlock(e: Engine, idx: nat, block: seq<Octet>)
    requires Valid(e) && e.binaryRead == 0 && e.rxBufIdx == 0
    requires idx < MaxSubTopics && e.subs[idx].callback.Some?
    requires 0 < |block| <= RxBufSize
    ensures var r := Run(e, HeaderLine(idx, |block|) + block);
            && r.Done? && r.out == ""
            && r.events == [Deliver(idx, r.engine.buf, (e.buffered + |block|) % 0x100)]
            && r.engine.buf[..|block|] == block
            && r.engine.binaryRead == 0 && r.engine.readingSub == NoReadingSub
            && r.engine.subs == e.subs && r.engine.pubs == e.pubs
  {
    HeaderLineFrame(idx, |block|);
    var line: seq<Octet> := HeaderLine(idx, |block|);
    var e2 := HeaderRead(e, line, idx, |block|);
    ThenBlock(e, line, e2, block);
  }

  lemma SmallLength(n: nat)
    requires n < 0x100
    ensures n % 0x100 == n
  {
  }
}
