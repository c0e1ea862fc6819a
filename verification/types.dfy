/**
 * Data model of the Eseye Telemetry Module driver: the constants, enums and
 * slot records of the header, and the whole driver state as one immutable
 * record. Every operation of the model takes an `Engine` and returns a new one.
 */
module Types {

  /** Unsigned 8-bit value: the parser counters, `uint8_t` fields and payload bytes. */
  type uint8 = x: int | 0 <= x < 0x100

  /** Unsigned 32-bit value: `millis()` readings and `senttime` stamps. */
  type uint32 = x: int | 0 <= x < 0x1_0000_0000

  /** One byte of the serial line, written as the character it encodes. */
  type Octet = c: char | c as int < 0x100

  /** Identity of an application callback (the function pointer a caller passed). */
  type CallbackId = nat

  datatype Option<+T> = None | Some(value: T)

  const CR: Octet := '\r'
  const LF: Octet := '\n'
  const NUL: Octet := '\0'

  // Capacities and limits of the header.
  const MaxSubTopics: nat := 8
  const MaxPubTopics: nat := 8
  const RxBufSize: nat := 100
  /** Publish-request timeout in milliseconds; the subscribe timeout is disabled. */
  const PubTimeout: nat := 3000

  /** Value `readingsub` holds when no binary block is being collected. */
  const NoReadingSub: uint8 := 0xff

  /** Subscribe topic state, with the integer codes of the C enum. */
  datatype SubState = SubError | SubNotInUse | Subscribing | Subscribed | Unsubscribing
  {
    function Code(): (c: int)
      ensures -1 <= c <= 3
      ensures c == -1 <==> this == SubError
      ensures c == 0 <==> this == SubNotInUse
    {
      match this
      case SubError => -1
      case SubNotInUse => 0
      case Subscribing => 1
      case Subscribed => 2
      case Unsubscribing => 3
    }

    /** A slot a new subscription may take. */
    predicate Free() {
      this == SubNotInUse || this == SubError
    }
  }

  /** Publish topic state, with the integer codes of the C enum. */
  datatype PubState = PubError | PubNotInUse | Registering | Registered | Unregistering
  {
    function Code(): (c: int)
      ensures -1 <= c <= 3
      ensures c == -1 <==> this == PubError
      ensures c == 0 <==> this == PubNotInUse
    {
      match this
      case PubError => -1
      case PubNotInUse => 0
      case Registering => 1
      case Registered => 2
      case Unregistering => 3
    }

    /** A slot a new registration may take. */
    predicate Free() {
      this == PubNotInUse || this == PubError
    }

    /** A slot waiting for the device's answer, and so subject to the timeout. */
    predicate Pending() {
      this == Registering || this == Unregistering
    }
  }

  /** Connectivity phase reported by the module, with the codes of the C enum. */
  datatype EtmState =
    | EtmUnknown | EtmIdleState | EtmWaitKeys | EtmNetworkStart | EtmSslStart | EtmSslConn
    | EtmMqttStart | EtmMqttReady | EtmMqttSub | EtmUdpActive | EtmError
  {
    function Code(): (c: int)
      ensures -1 <= c <= 9
      ensures c == -1 <==> this == EtmUnknown
    {
      match this
      case EtmUnknown => -1
      case EtmIdleState => 0
      case EtmWaitKeys => 1
      case EtmNetworkStart => 2
      case EtmSslStart => 3
      case EtmSslConn => 4
      case EtmMqttStart => 5
      case EtmMqttReady => 6
      case EtmMqttSub => 7
      case EtmUdpActive => 8
      case EtmError => 9
    }
  }

  /** The connectivity phase a reported value names, if it names one. */
  function EtmStateOf(v: int): (r: Option<EtmState>)
    ensures r.Some? ==> r.value.Code() == v
    ensures r.None? ==> v < -1 || v > 9
  {
    if v == -1 then Some(EtmUnknown)
    else if v == 0 then Some(EtmIdleState)
    else if v == 1 then Some(EtmWaitKeys)
    else if v == 2 then Some(EtmNetworkStart)
    else if v == 3 then Some(EtmSslStart)
    else if v == 4 then Some(EtmSslConn)
    else if v == 5 then Some(EtmMqttStart)
    else if v == 6 then Some(EtmMqttReady)
    else if v == 7 then Some(EtmMqttSub)
    else if v == 8 then Some(EtmUdpActive)
    else if v == 9 then Some(EtmError)
    else None
  }

  /** Every connectivity phase is named by its own code, so a recorded code determines the phase. */
  lemma EtmStateCodes(s: EtmState)
    ensures EtmStateOf(s.Code()) == Some(s)
  {
  }

  // Readiness flags recorded in `urcSeen`. The name ETM_IDLE in the driver
  // body is the bit macro, not the enum value 0 of the connectivity enum.
  const ModemSeen: bv16 := 1 << 0
  const EtmIdle: bv16 := 1 << 1
  const EtmMqttRdy: bv16 := 1 << 2
  const EtmUdpRdy: bv16 := 1 << 3

  predicate IsDone(x: bv16, y: bv16) {
    x & y != 0
  }

  /** The four readiness flags are distinct single bits. */
  lemma FlagsAreBits()
    ensures ModemSeen == 1 && EtmIdle == 2 && EtmMqttRdy == 4 && EtmUdpRdy == 8
    ensures ModemSeen & EtmIdle == 0 && ModemSeen & EtmMqttRdy == 0 && ModemSeen & EtmUdpRdy == 0
    ensures EtmIdle & EtmMqttRdy == 0 && EtmIdle & EtmUdpRdy == 0 && EtmMqttRdy & EtmUdpRdy == 0
  {
  }

  /** Or-ing a flag in keeps every flag already set and sets the new one. */
  lemma SetFlagKeeps(seen: bv16, flag: bv16, other: bv16)
    ensures IsDone(seen | flag, flag) <==> flag != 0
    ensures IsDone(seen, other) ==> IsDone(seen | flag, other)
  {
  }

  /** Distinct slot states have distinct codes. */
  lemma SubCodeInjective(a: SubState, b: SubState)
    requires a.Code() == b.Code()
    ensures a == b
  {
  }

  lemma PubCodeInjective(a: PubState, b: PubState)
    requires a.Code() == b.Code()
    ensures a == b
  {
  }

  /** A subscribe slot: its state and the message callback it delivers to. */
  datatype SubSlot = SubSlot(state: SubState, callback: Option<CallbackId>)

  /** A publish slot: its state and the time its last request was sent. */
  datatype PubSlot = PubSlot(state: PubState, sentTime: uint32)

  /** What the driver hands to the application through its callbacks. */
  datatype Event =
    | Deliver(topic: uint8, data: seq<Octet>, count: uint8)  // message callback of a subscribe slot
    | Forward(text: string)                               // unhandled-line callback
    | StateChanged                                            // state-change callback

  /** The whole driver state. */
  datatype Engine = Engine(
    subs: seq<SubSlot>,
    pubs: seq<PubSlot>,
    buf: seq<Octet>,        // modemrxbuf
    rxBufIdx: uint8,
    binaryRead: uint8,      // bytes still expected in a binary block
    buffered: uint8,        // bytes of the block collected so far
    readingSub: uint8,      // subscribe slot the block is for
    outstandingOk: uint8,   // commands still waiting for OK/ERROR
    urcSeen: bv16,
    currentState: int,      // raw value of the last state report
    urcHandler: bool,       // an unhandled-line callback is registered
    stateHandler: bool)     // a state-change callback is registered

  /** Shape every reachable engine has. */
  predicate Valid(e: Engine) {
    && |e.subs| == MaxSubTopics
    && |e.pubs| == MaxPubTopics
    && |e.buf| == RxBufSize
    && e.rxBufIdx < RxBufSize
    // a text frame in progress never starts with a line break: those are dropped
    && (e.binaryRead == 0 && e.rxBufIdx > 0 ==> e.buf[0] != CR && e.buf[0] != LF)
  }

  /** The state `init` leaves behind, with no request outstanding. */
  function Initial(urcHandler: bool): (e: Engine)
    ensures Valid(e)
    ensures forall i :: 0 <= i < |e.subs| ==> e.subs[i].state == SubNotInUse && e.subs[i].callback == None
    ensures forall i :: 0 <= i < |e.pubs| ==> e.pubs[i].state == PubNotInUse
    ensures e.binaryRead == 0 && e.outstandingOk == 0 && e.urcSeen == 0
    ensures e.rxBufIdx == 0 && e.buffered == 0 && e.readingSub == NoReadingSub
    ensures e.currentState == EtmUnknown.Code() && !e.stateHandler && e.urcHandler == urcHandler
  {
    Engine(
      seq(MaxSubTopics, _ => SubSlot(SubNotInUse, None)),
      seq(MaxPubTopics, _ => PubSlot(PubNotInUse, 0)),
      seq(RxBufSize, _ => NUL),
      0, 0, 0, NoReadingSub, 0, 0, EtmUnknown.Code(), urcHandler, false)
  }

  /** `incOKreq`: one more command awaits OK/ERROR; the 8-bit counter wraps. */
  function IncOkReq(n: uint8): (r: uint8)
    ensures n < 0xff ==> r == n + 1
    ensures n == 0xff ==> r == 0
  {
    (n + 1) % 0x100
  }

  /** `inSync`: no command is waiting for its OK/ERROR. */
  predicate InSync(e: Engine) {
    e.outstandingOk == 0
  }
}
