/**
 * The classifier `poll` applies to a completed text line: a prefix dispatch
 * (`strncmp` against the line, which still ends in its CR/LF) that picks one
 * kind of notification and reads its fields at fixed offsets with `strtol`,
 * followed by the effect that kind has on the driver state.
 *
 * A line stands for the C string in the receive buffer; offset |line| is its
 * terminator. The source reads stale buffer bytes beyond the terminator on
 * some short lines, and indexes the slot tables with unchecked indices sent
 * by the module; the model reports both as `Undefined`.
 */
module Classifier {
  import opened Types
  import opened CText

  /** Kinds of line, with the fields the driver reads from them. */
  datatype Urc =
    | Ready(flag: bv16)                   // +ETM:IDLE, +ETM:EMQRDY, +ETM:EURDY
    | StateReport(value: int)             // +ETMSTATE...
    | SubOpened(idx: uint8, err: int)     // +EMQSUBOPEN...
    | PubOpened(idx: uint8, err: int)     // +EMQPUBOPEN...
    | OpenOther                           // an OPEN result for neither table
    | SubClosed(idx: uint8, err: int)     // +EMQSUBCLOSE...
    | PubClosed(idx: uint8, err: int)     // +EMQPUBCLOSE...
    | CloseOther                          // a CLOSE result for neither table
    | MessageHeader(idx: uint8, len: uint8)  // +EMQ:<index>,<length>
    | SendOk
    | SendFail
    | AppReady                            // the BG96 start-up banner
    | Ack                                 // OK or ERROR while a command is outstanding
    | BlankLine                           // CR LF while a command is outstanding
    | Unhandled
    | StaleRead                           // a read beyond the terminator

  /** Byte `k` of the C string `line`; the terminator sits at |line|. */
  function At(line: string, k: nat): (c: char)
    ensures k < |line| ==> c == line[k]
    ensures k >= |line| ==> c == NUL
  {
    if k < |line| then line[k] else NUL
  }

  /** `strncmp(line + k, p, strlen(p)) == 0` for a `p` without NUL. */
  predicate MatchAt(line: string, k: nat, p: string) {
    k <= |line| && p <= line[k..]
  }

  /** Two prefixes that differ at some position cannot both start a line. */
  lemma PrefixesDiffer(line: string, k: nat, p: string, q: string)
    requires k < |p| && k < |q| && p[k] != q[k]
    ensures MatchAt(line, 0, p) ==> !MatchAt(line, 0, q)
  {
    if MatchAt(line, 0, p) {
      assert line[k] == p[k];
    }
  }

  /** The two numbers of an OPEN/CLOSE result or a message header. */
  datatype Fields = Fields(first: int, second: int)

  /**
   * `strtol(line + k, &end)` and then `strtol(end + 1)`; None when either read
   * would start beyond the terminator.
   */
  function ReadFields(line: string, k: nat): (r: Option<Fields>)
    ensures r.Some? ==> k <= |line| && r.value.first == StrToL(line, k).value
    ensures r.Some? ==> StrToL(line, k).end + 1 <= |line|
                        && r.value.second == StrToL(line, StrToL(line, k).end + 1).value
    ensures r.None? <==> k > |line| || StrToL(line, k).end + 1 > |line|
  {
    if k > |line| then None
    else
      var a := StrToL(line, k);
      if a.end + 1 > |line| then None
      else Some(Fields(a.value, StrToL(line, a.end + 1).value))
  }

  /** The prefix dispatch of `poll`, in the order the source tries the prefixes. */
  function Classify(line: string, outstanding: uint8): (u: Urc)
    ensures u.Ack? ==> outstanding > 0 && (MatchAt(line, 0, "OK") || MatchAt(line, 0, "ERROR"))
    ensures u.BlankLine? ==> outstanding > 0 && MatchAt(line, 0, "\r\n")
    ensures u.Ready? ==> MatchAt(line, 0, "+ETM:") && (u.flag == EtmIdle || u.flag == EtmMqttRdy || u.flag == EtmUdpRdy)
    ensures (u.SubOpened? || u.PubOpened? || u.SubClosed? || u.PubClosed?) ==> -0x80 <= u.err < 0x80
    ensures (u.SubOpened? || u.PubOpened? || u.OpenOther?) ==> MatchAt(line, 7, "OPEN")
    ensures (u.SubClosed? || u.PubClosed? || u.CloseOther?) ==> MatchAt(line, 7, "CLOSE")
    ensures u.StaleRead? ==> MatchAt(line, 0, "+ETMSTATE") || MatchAt(line, 0, "+EMQ")
  {
    if MatchAt(line, 0, "+ETM") then ClassifyEtm(line)
    else if MatchAt(line, 0, "+EMQ") then ClassifyEmq(line)
    else ClassifyOther(line, outstanding)
  }

  /** Lines starting "+ETM": a readiness flag after ':', else a state report. */
  function ClassifyEtm(line: string): (u: Urc)
    requires MatchAt(line, 0, "+ETM")
    ensures u.Ready? || u.StateReport? || u.StaleRead? || u.Unhandled?
    ensures u.Ready? ==> MatchAt(line, 0, "+ETM:") && (u.flag == EtmIdle || u.flag == EtmMqttRdy || u.flag == EtmUdpRdy)
    ensures u.StaleRead? ==> MatchAt(line, 0, "+ETMSTATE")
  {
    if At(line, 4) == ':' then
      if MatchAt(line, 5, "IDLE") then Ready(EtmIdle)
      else if MatchAt(line, 5, "EMQRDY") then Ready(EtmMqttRdy)
      else if MatchAt(line, 5, "EURDY") then Ready(EtmUdpRdy)
      else Unhandled
    else if MatchAt(line, 4, "STATE") then
      if 11 > |line| then StaleRead else StateReport(StrToL(line, 11).value)
    else Unhandled
  }

  /** Lines starting "+EMQ": OPEN and CLOSE results, and message headers. */
  function ClassifyEmq(line: string): (u: Urc)
    requires MatchAt(line, 0, "+EMQ")
    ensures u.SubOpened? || u.PubOpened? || u.OpenOther? || u.SubClosed? || u.PubClosed? || u.CloseOther?
            || u.MessageHeader? || u.StaleRead? || u.Unhandled?
    ensures (u.SubOpened? || u.PubOpened? || u.SubClosed? || u.PubClosed?) ==> -0x80 <= u.err < 0x80
    ensures (u.SubOpened? || u.PubOpened? || u.OpenOther?) ==> MatchAt(line, 7, "OPEN")
    ensures (u.SubClosed? || u.PubClosed? || u.CloseOther?) ==> MatchAt(line, 7, "CLOSE")
    ensures u.MessageHeader? ==> 7 <= |line| && line[4] == ':'
    ensures u.Unhandled? <==> 7 <= |line| && !MatchAt(line, 7, "OPEN") && !MatchAt(line, 7, "CLOSE") && line[4] != ':'
  {
    if 7 > |line| then StaleRead
    else if MatchAt(line, 7, "OPEN") then OpenResult(line)
    else if MatchAt(line, 7, "CLOSE") then CloseResult(line)
    else if At(line, 4) == ':' then
      match ReadFields(line, 5)
      case None => StaleRead
      case Some(f) => MessageHeader(ToUint8(f.first), ToUint8(f.second))
    else Unhandled
  }

  /** `+EMQSUBOPEN:` / `+EMQPUBOPEN:`: index at offset 12, then the error code. */
  function OpenResult(line: string): (u: Urc)
    ensures u.SubOpened? || u.PubOpened? || u.OpenOther? || u.StaleRead?
    ensures (u.SubOpened? || u.PubOpened?) ==> -0x80 <= u.err < 0x80
    ensures u.SubOpened? ==> MatchAt(line, 4, "SUB")
    ensures u.PubOpened? ==> MatchAt(line, 4, "PUB")
  {
    match ReadFields(line, 12)
    case None => StaleRead
    case Some(f) =>
      var idx := ToUint8(f.first);
      var err := ToInt8(f.second);
      if MatchAt(line, 4, "SUB") then SubOpened(idx, err)
      else if MatchAt(line, 4, "PUB") then PubOpened(idx, err)
      else OpenOther
  }

  /** `+EMQSUBCLOSE:` / `+EMQPUBCLOSE:`: index at offset 13, then the error code. */
  function CloseResult(line: string): (u: Urc)
    ensures u.SubClosed? || u.PubClosed? || u.CloseOther? || u.StaleRead?
    ensures (u.SubClosed? || u.PubClosed?) ==> -0x80 <= u.err < 0x80
    ensures u.SubClosed? ==> MatchAt(line, 4, "SUB")
    ensures u.PubClosed? ==> MatchAt(line, 4, "PUB")
  {
    match ReadFields(line, 13)
    case None => StaleRead
    case Some(f) =>
      var idx := ToUint8(f.first);
      var err := ToInt8(f.second);
      if MatchAt(line, 4, "SUB") then SubClosed(idx, err)
      else if MatchAt(line, 4, "PUB") then PubClosed(idx, err)
      else CloseOther
  }

  /** Every other line: send results, the start-up banner, and acknowledgements when one is due. */
  function ClassifyOther(line: string, outstanding: uint8): (u: Urc)
    ensures u.SendOk? || u.SendFail? || u.AppReady? || u.Ack? || u.BlankLine? || u.Unhandled?
    ensures u.Ack? ==> outstanding > 0 && (MatchAt(line, 0, "OK") || MatchAt(line, 0, "ERROR"))
    ensures u.BlankLine? ==> outstanding > 0 && MatchAt(line, 0, "\r\n")
    ensures u.SendOk? <==> MatchAt(line, 0, ":SEND OK")
    ensures u.SendFail? <==> MatchAt(line, 0, ":SEND FAIL")
    ensures u.AppReady? <==> MatchAt(line, 0, "APP RDY")
  {
    if MatchAt(line, 0, ":SEND OK") then
      PrefixesDiffer(line, 6, ":SEND OK", ":SEND FAIL");
      PrefixesDiffer(line, 0, ":SEND OK", "APP RDY");
      SendOk
    else if MatchAt(line, 0, ":SEND FAIL") then
      PrefixesDiffer(line, 0, ":SEND FAIL", "APP RDY");
      SendFail
    else if MatchAt(line, 0, "APP RDY") then AppReady
    else if outstanding > 0 then
      if MatchAt(line, 0, "OK") then Ack
      else if MatchAt(line, 0, "ERROR") then Ack
      else if MatchAt(line, 0, "\r\n") then BlankLine
      else Unhandled
    else Unhandled
  }

  /** The C string the unhandled-line callback receives: the line up to its first NUL. */
  function CStr(line: string): (t: string)
    ensures t <= line
    ensures forall k :: 0 <= k < |t| ==> t[k] != NUL
    ensures |t| < |line| ==> line[|t|] == NUL
  {
    if |line| == 0 || line[0] == NUL then [] else [line[0]] + CStr(line[1..])
  }

  /** Sizes every engine has; the classifier also runs on a full buffer. */
  predicate Shaped(e: Engine) {
    |e.subs| == MaxSubTopics && |e.pubs| == MaxPubTopics && |e.buf| == RxBufSize
  }

  /** Result of feeding bytes or a line: undefined behaviour, or the new state, output and callbacks. */
  datatype Outcome = Undefined | Done(engine: Engine, out: string, events: seq<Event>)

  /** Is an OPEN result's error code a success? 0, or -2 ("already open" from before a reset). */
  predicate OpenSucceeded(err: int) {
    err == 0 || err == -2
  }

  /** The effect of a line classified as `u`; the buffer index always returns to 0. */
  function Apply(e: Engine, u: Urc, line: string): (r: Outcome)
    requires Shaped(e)
    requires u.Ack? ==> e.outstandingOk > 0   // the classifier only acknowledges when one is due
    ensures r.Undefined? <==>
              || u.StaleRead?
              || ((u.SubOpened? || u.PubOpened? || u.SubClosed? || u.PubClosed?) && u.idx >= MaxSubTopics)
    ensures r.Done? ==> Valid(r.engine) && r.engine.rxBufIdx == 0 && r.engine.buf == e.buf
  {
    var e0 := e.(rxBufIdx := 0);
    match u
    case Ready(flag) => Done(e0.(urcSeen := e.urcSeen | flag), "", [])
    case StateReport(v) => Done(e0.(currentState := v), "", if e.stateHandler then [StateChanged] else [])
    case SubOpened(i, err) =>
      if i >= MaxSubTopics then Undefined
      else Done(e0.(subs := e.subs[i := e.subs[i].(state := if OpenSucceeded(err) then Subscribed else SubError)]), "", [])
    case PubOpened(i, err) =>
      if i >= MaxPubTopics then Undefined
      else Done(e0.(pubs := e.pubs[i := e.pubs[i].(state := if OpenSucceeded(err) then Registered else PubError)]), "", [])
    case SubClosed(i, _) =>
      if i >= MaxSubTopics then Undefined
      else Done(e0.(subs := e.subs[i := e.subs[i].(state := SubNotInUse)]), "", [])
    case PubClosed(i, _) =>
      if i >= MaxPubTopics then Undefined
      else Done(e0.(pubs := e.pubs[i := e.pubs[i].(state := PubNotInUse)]), "", [])
    case OpenOther => Done(e0, "", [])
    case CloseOther => Done(e0, "", [])
    case MessageHeader(i, len) => Done(e0.(readingSub := i, binaryRead := len), "", [])
    case SendOk => Done(e0, "", [])
    case SendFail => Done(e0, "", [])
    case AppReady => Done(e0, "ATE0\r\n", [])
    case Ack => Done(e0.(outstandingOk := e.outstandingOk - 1), "", [])
    case BlankLine => Done(e0, "", [])
    case Unhandled => Done(e0, "", if e.urcHandler then [Forward(CStr(line))] else [])
    case StaleRead => Undefined
  }

  /** OPEN and CLOSE results set the addressed slot whatever state it was in; nothing else touches the tables. */
  lemma ApplySlots(e: Engine, u: Urc, line: string)
    requires Shaped(e)
    requires u.Ack? ==> e.outstandingOk > 0
    ensures var r := Apply(e, u, line);
      r.Done? ==>
        && r.engine.subs ==
             (if u.SubOpened? then e.subs[u.idx := e.subs[u.idx].(state := if OpenSucceeded(u.err) then Subscribed else SubError)]
              else if u.SubClosed? then e.subs[u.idx := e.subs[u.idx].(state := SubNotInUse)]
              else e.subs)
        && r.engine.pubs ==
             (if u.PubOpened? then e.pubs[u.idx := e.pubs[u.idx].(state := if OpenSucceeded(u.err) then Registered else PubError)]
              else if u.PubClosed? then e.pubs[u.idx := e.pubs[u.idx].(state := PubNotInUse)]
              else e.pubs)
  {
  }

  /** The acknowledgement counter, the readiness flags and the reported state. */
  lemma ApplyCounters(e: Engine, u: Urc, line: string)
    requires Shaped(e)
    requires u.Ack? ==> e.outstandingOk > 0
    ensures var r := Apply(e, u, line);
      r.Done? ==>
        && r.engine.outstandingOk == (if u.Ack? then e.outstandingOk - 1 else e.outstandingOk)
        && r.engine.urcSeen == (if u.Ready? then e.urcSeen | u.flag else e.urcSeen)
        && r.engine.currentState == (if u.StateReport? then u.value else e.currentState)
  {
  }

  /** Only a message header starts a binary block; the handlers are never changed. */
  lemma ApplyBlock(e: Engine, u: Urc, line: string)
    requires Shaped(e)
    requires u.Ack? ==> e.outstandingOk > 0
    ensures var r := Apply(e, u, line);
      r.Done? ==>
        && r.engine.binaryRead == (if u.MessageHeader? then u.len else e.binaryRead)
        && r.engine.readingSub == (if u.MessageHeader? then u.idx else e.readingSub)
        && r.engine.buffered == e.buffered
        && r.engine.urcHandler == e.urcHandler && r.engine.stateHandler == e.stateHandler
  {
  }

  /** What each kind of line writes and which callbacks it runs. */
  lemma ApplyOutputs(e: Engine, u: Urc, line: string)
    requires Shaped(e)
    requires u.Ack? ==> e.outstandingOk > 0
    ensures var r := Apply(e, u, line);
      r.Done? ==>
        && r.out == (if u.AppReady? then "ATE0\r\n" else "")
        && r.events ==
             (if u.Unhandled? && e.urcHandler then [Forward(CStr(line))]
              else if u.StateReport? && e.stateHandler then [StateChanged]
              else [])
  {
  }

  /** Classify a completed line and apply its effect. */
  function Dispatch(e: Engine, line: string): Outcome
    requires Shaped(e)
  {
    Apply(e, Classify(line, e.outstandingOk), line)
  }
}
