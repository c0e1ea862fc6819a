/**
 * `poll`: the byte framer. Each byte is stored in the receive buffer; while a
 * binary block is announced it is counted towards that block and the block
 * is delivered to its topic's callback when complete; otherwise bytes are
 * collected into a text line that is classified when its LF arrives.
 * Leading CR/LF bytes are dropped and a line that fills the buffer is
 * discarded by resetting the index.
 */
module Framer {
  import opened Types
  import opened Classifier
  import opened Timeout

  /**
   * `modemrxbuf[i] = c; modemrxbuf[i + 1] = 0;` in a buffer of |buf| bytes.
   * The terminator store is made only while it stays inside the buffer
   * (see `StoreAsWritten` for the store exactly as the source writes it).
   */
  function Store(buf: seq<Octet>, i: nat, c: Octet): (b: seq<Octet>)
    requires i < |buf|
    ensures |b| == |buf| && b[i] == c
    ensures i + 1 < |buf| ==> b[i + 1] == NUL
    ensures forall j :: 0 <= j < |buf| && j != i && j != i + 1 ==> b[j] == buf[j]
  {
    if i + 1 < |buf| then buf[i := c][i + 1 := NUL] else buf[i := c]
  }

  /**
   * The two stores as written, into the 100-byte `modemrxbuf`: None when the
   * terminator would land at index |buf|, outside the array.
   */
  function StoreAsWritten(buf: seq<Octet>, i: nat, c: Octet): (r: Option<seq<Octet>>)
    requires i < |buf|
    ensures r.None? <==> i + 1 == |buf|
    ensures r.Some? ==> r.value == Store(buf, i, c)
  {
    if i + 1 < |buf| then Some(buf[i := c][i + 1 := NUL]) else None
  }

  /** `rxbufidx` after it has been advanced: back to 0 when it reaches the buffer size. */
  function Advance(i: nat): (r: uint8)
    requires i < RxBufSize
    ensures r < RxBufSize
    ensures i + 1 < RxBufSize ==> r == i + 1
    ensures i + 1 == RxBufSize ==> r == 0
  {
    if i + 1 >= RxBufSize then 0 else i + 1
  }

  /**
   * The last byte of a binary block has been stored in `b`, making `count`
   * bytes: a slot with a callback gets them and the reader forgets the block;
   * otherwise nothing is delivered and the count and the slot are kept.
   */
  function Complete(e: Engine, b: seq<Octet>, count: uint8): (r: Outcome)
    requires Valid(e.(buf := b, rxBufIdx := 0))
    ensures r.Done? && Valid(r.engine) && r.out == ""
    ensures r.engine.rxBufIdx == 0 && r.engine.binaryRead == 0 && r.engine.buf == b
    ensures r.engine.subs == e.subs && r.engine.pubs == e.pubs && r.engine.outstandingOk == e.outstandingOk
    ensures e.readingSub < MaxSubTopics && e.subs[e.readingSub].callback.Some? ==>
              r.events == [Deliver(e.readingSub, b, count)] && r.engine.readingSub == NoReadingSub && r.engine.buffered == 0
    ensures !(e.readingSub < MaxSubTopics && e.subs[e.readingSub].callback.Some?) ==>
              r.events == [] && r.engine.readingSub == e.readingSub && r.engine.buffered == count
    ensures r.engine == e.(buf := b, rxBufIdx := 0, binaryRead := 0,
                           buffered := r.engine.buffered, readingSub := r.engine.readingSub)
  {
    if e.readingSub < MaxSubTopics && e.subs[e.readingSub].callback.Some? then
      Done(e.(buf := b, rxBufIdx := 0, binaryRead := 0, buffered := 0, readingSub := NoReadingSub),
           "", [Deliver(e.readingSub, b, count)])
    else
      Done(e.(buf := b, rxBufIdx := 0, binaryRead := 0, buffered := count), "", [])
  }

  /** One byte read by `poll`. */
  function Step(e: Engine, c: Octet): (r: Outcome)
    requires Valid(e)
    ensures r.Done? ==> Valid(r.engine)
  {
    var i := e.rxBufIdx;
    var b := Store(e.buf, i, c);
    if e.binaryRead > 0 then
      var left := e.binaryRead - 1;
      var count := (e.buffered + 1) % 0x100;
      if left > 0 then
        Done(e.(buf := b, rxBufIdx := Advance(i), binaryRead := left, buffered := count), "", [])
      else
        Complete(e, b, count)
    else
      // a '>' prompt in first position is replaced in the local copy only
      var d := if i == 0 && c == '>' then NUL else c;
      if i == 0 && (d == CR || d == LF) then
        Done(e.(buf := b, rxBufIdx := 0), "", [])
      else if d == LF then
        Dispatch(e.(buf := b), b[..i + 1])
      else
        Done(e.(buf := b, rxBufIdx := Advance(i)), "", [])
  }

  /** `r` preceded by the output `out` and the callbacks `events` of earlier bytes. */
  function Join(out: string, events: seq<Event>, r: Outcome): (j: Outcome)
    ensures j.Undefined? <==> r.Undefined?
    ensures j.Done? ==> j.engine == r.engine && j.out == out + r.out && j.events == events + r.events
  {
    match r
    case Undefined => Undefined
    case Done(e, out2, events2) => Done(e, out + out2, events + events2)
  }

  /** The bytes of `input` read one after another; the outputs and callbacks accumulate. */
  function Run(e: Engine, input: seq<Octet>): (r: Outcome)
    requires Valid(e)
    ensures r.Done? ==> Valid(r.engine)
    decreases |input|
  {
    if |input| == 0 then Done(e, "", [])
    else
      var r0 := Step(e, input[0]);
      if r0.Undefined? then Undefined else Join(r0.out, r0.events, Run(r0.engine, input[1..]))
  }

  /** `poll`: the timeout monitor, then every byte the serial line has available. */
  function Poll(e: Engine, now: uint32, input: seq<Octet>): (r: Outcome)
    requires Valid(e)
    ensures r.Done? ==> Valid(r.engine)
  {
    Run(CheckTimeout(e, now).engine, input)
  }

  /** The buffer after storing `s` from index `k` on. */
  function Fill(buf: seq<Octet>, k: nat, s: seq<Octet>): (b: seq<Octet>)
    requires k + |s| <= |buf|
    ensures |b| == |buf|
    decreases |s|
  {
    if |s| == 0 then buf else Fill(Store(buf, k, s[0]), k + 1, s[1..])
  }

  /** A store leaves the bytes before its index as they were. */
  lemma StoreKeeps(buf: seq<Octet>, i: nat, c: Octet)
    requires i < |buf|
    ensures Store(buf, i, c)[..i] == buf[..i]
  {
  }

  /** What `Fill` leaves in the buffer: the bytes before `k` untouched, then `s`. */
  lemma {:induction false} FillHolds(buf: seq<Octet>, k: nat, s: seq<Octet>)
    requires k + |s| <= |buf|
    ensures Fill(buf, k, s)[..k] == buf[..k]
    ensures Fill(buf, k, s)[k..k + |s|] == s
    decreases |s|
  {
    if |s| > 0 {
      var b1 := Store(buf, k, s[0]);
      FillHolds(b1, k + 1, s[1..]);
      StoreKeeps(buf, k, s[0]);
      var b := Fill(buf, k, s);
      assert b[..k] == b1[..k];
      assert b[..k] == buf[..k];
      assert b[k] == b1[k];
      assert b[k..k + |s|] == [s[0]] + b[k + 1..k + 1 + |s[1..]|];
    }
  }

  // ---------------------------------------------------------------------
  // One byte

  /** A byte that is neither the end of a binary block nor a line feed never writes or calls anything. */
  lemma StepQuiet(e: Engine, c: Octet)
    requires Valid(e)
    requires if e.binaryRead > 0 then e.binaryRead > 1 else c != LF
    ensures var r := Step(e, c);
            && r.Done? && r.out == "" && r.events == []
            && r.engine.subs == e.subs && r.engine.pubs == e.pubs
            && r.engine.outstandingOk == e.outstandingOk && r.engine.urcSeen == e.urcSeen
            && r.engine.currentState == e.currentState && r.engine.readingSub == e.readingSub
  {
  }

  /**
   * A CR or LF arriving first in a text frame is dropped: the index stays
   * at 0 and nothing else happens.
   */
  lemma LeadingLineBreakDropped(e: Engine, c: Octet)
    requires Valid(e) && e.binaryRead == 0 && e.rxBufIdx == 0
    requires c == CR || c == LF
    ensures Step(e, c) == Done(e.(buf := Store(e.buf, 0, c)), "", [])
  {
  }

  /** A '>' prompt in first position is collected like any other byte. */
  lemma PromptByteIsBuffered(e: Engine)
    requires Valid(e) && e.binaryRead == 0 && e.rxBufIdx == 0
    ensures Step(e, '>') == Done(e.(buf := Store(e.buf, 0, '>'), rxBufIdx := 1), "", [])
  {
  }

  /**
   * Any other text byte but LF is collected: the index moves on, and a frame
   * that reaches the buffer size is discarded by starting over at 0.
   */
  lemma TextByteCollected(e: Engine, c: Octet)
    requires Valid(e) && e.binaryRead == 0 && c != LF
    requires e.rxBufIdx == 0 ==> c != CR
    ensures Step(e, c) == Done(e.(buf := Store(e.buf, e.rxBufIdx, c),
                                  rxBufIdx := if e.rxBufIdx + 1 == RxBufSize then 0 else e.rxBufIdx + 1), "", [])
  {
  }

  /**
   * A line feed after at least one collected byte hands the frame, LF
   * included, to the classifier. That frame never starts with CR, so it is
   * never taken for the blank-line acknowledgement.
   */
  lemma LineFeedDispatches(e: Engine)
    requires Valid(e) && e.binaryRead == 0 && e.rxBufIdx > 0
    ensures var b := Store(e.buf, e.rxBufIdx, LF);
            && Step(e, LF) == Dispatch(e.(buf := b), b[..e.rxBufIdx + 1])
            && Classify(b[..e.rxBufIdx + 1], e.outstandingOk) != BlankLine
  {
    var b := Store(e.buf, e.rxBufIdx, LF);
    assert b[..e.rxBufIdx + 1][0] == e.buf[0];
  }

  /** Inside a binary block every byte is counted, whatever its value; no line is ever classified. */
  lemma BinaryByteCounted(e: Engine, c: Octet)
    requires Valid(e) && e.binaryRead > 0
    ensures var r := Step(e, c);
            && r.Done? && r.out == ""
            && r.engine.binaryRead == e.binaryRead - 1
            && r.engine.buf == Store(e.buf, e.rxBufIdx, c)
            && r.engine.subs == e.subs && r.engine.pubs == e.pubs
            && r.engine.outstandingOk == e.outstandingOk
  {
  }

  // ---------------------------------------------------------------------
  // Whole frames

  /** Text bytes before the line feed: they are collected and nothing else happens. */
  lemma {:induction false} RunCollects(e: Engine, s: seq<Octet>)
    requires Valid(e) && e.binaryRead == 0
    requires e.rxBufIdx + |s| < RxBufSize
    requires forall j :: 0 <= j < |s| ==> s[j] != LF
    requires e.rxBufIdx == 0 && |s| > 0 ==> s[0] != CR
    ensures Run(e, s) == Done(e.(buf := Fill(e.buf, e.rxBufIdx, s), rxBufIdx := e.rxBufIdx + |s|), "", [])
    decreases |s|
  {
    if |s| > 0 {
      TextByteCollected(e, s[0]);
      var e1 := e.(buf := Store(e.buf, e.rxBufIdx, s[0]), rxBufIdx := e.rxBufIdx + 1);
      RunCollects(e1, s[1..]);
    }
  }

  lemma JoinNothing(r: Outcome)
    ensures Join("", [], r) == r
  {
    if r.Done? {
      assert "" + r.out == r.out;
      assert [] + r.events == r.events;
    }
  }

  lemma JoinJoin(out1: string, ev1: seq<Event>, out2: string, ev2: seq<Event>, r: Outcome)
    ensures Join(out1, ev1, Join(out2, ev2, r)) == Join(out1 + out2, ev1 + ev2, r)
  {
    if r.Done? {
      assert out1 + (out2 + r.out) == (out1 + out2) + r.out;
      assert ev1 + (ev2 + r.events) == (ev1 + ev2) + r.events;
    }
  }

  /** Reading `s` and then `t` is reading `s + t`, when `s` is read without undefined behaviour. */
  lemma {:induction false} RunAppend(e: Engine, s: seq<Octet>, t: seq<Octet>)
    requires Valid(e) && Run(e, s).Done?
    ensures Run(e, s + t) == Join(Run(e, s).out, Run(e, s).events, Run(Run(e, s).engine, t))
    decreases |s|
  {
    if |s| == 0 {
      assert s + t == t;
      JoinNothing(Run(e, t));
    } else {
      assert (s + t)[0] == s[0];
      assert (s + t)[1..] == s[1..] + t;
      var r0 := Step(e, s[0]);
      var r1 := Run(r0.engine, s[1..]);
      RunAppend(r0.engine, s[1..], t);
      JoinJoin(r0.out, r0.events, r1.out, r1.events, Run(r1.engine, t));
    }
  }

  /** Reading one byte is that byte's step. */
  lemma RunOne(e: Engine, c: Octet)
    requires Valid(e)
    ensures Run(e, [c]) == Step(e, c)
  {
    assert [c][1..] == [];
    JoinNothing(Step(e, c));
  }

  /** Filling a buffer with `line` is filling it with all but the last byte, then storing that one. */
  lemma {:induction false} FillLast(buf: seq<Octet>, line: seq<Octet>)
    requires 0 < |line| <= |buf|
    ensures var n := |line| - 1;
            && Fill(buf, 0, line) == Store(Fill(buf, 0, line[..n]), n, line[n])
            && Fill(buf, 0, line)[..|line|] == line
  {
    var n := |line| - 1;
    LastSplit(line);
    FillSnoc(buf, 0, line[..n], line[n]);
    FillHolds(buf, 0, line);
  }

  lemma LastSplit(s: seq<Octet>)
    requires 0 < |s|
    ensures s[..|s| - 1] + [s[|s| - 1]] == s
  {
  }

  lemma {:induction false} FillSnoc(buf: seq<Octet>, k: nat, s: seq<Octet>, c: Octet)
    requires k + |s| < |buf|
    ensures Fill(buf, k, s + [c]) == Store(Fill(buf, k, s), k + |s|, c)
    decreases |s|
  {
    if |s| == 0 {
      assert s + [c] == [c];
      assert [c][1..] == [];
    } else {
      assert (s + [c])[0] == s[0];
      assert (s + [c])[1..] == s[1..] + [c];
      FillSnoc(Store(buf, k, s[0]), k + 1, s[1..], c);
    }
  }

  /**
   * A complete text line (at most the buffer size, LF last and nowhere
   * else, not starting with CR) read from an empty text frame reaches the
   * classifier as exactly those bytes.
   */
  lemma RunLine(e: Engine, line: seq<Octet>)
    requires Valid(e) && e.binaryRead == 0 && e.rxBufIdx == 0
    requires 2 <= |line| <= RxBufSize && line[0] != CR && line[|line| - 1] == LF
    requires forall j :: 0 <= j < |line| - 1 ==> line[j] != LF
    ensures Run(e, line) == Dispatch(e.(buf := Fill(e.buf, 0, line), rxBufIdx := |line| - 1), line)
  {
    var n := |line| - 1;
    var s := line[..n];
    LastSplit(line);
    RunCollects(e, s);
    var e1 := e.(buf := Fill(e.buf, 0, s), rxBufIdx := n);
    RunAppend(e, s, [LF]);
    RunOne(e1, LF);
    JoinNothing(Run(e1, [LF]));
    LineFeedDispatches(e1);
    FillLast(e.buf, line);
  }

  /** `s` is the rest of the binary block being read, and fits in the buffer from the current index. */
  predicate BlockAhead(e: Engine, s: seq<Octet>) {
    Valid(e) && 0 < |s| == e.binaryRead && e.rxBufIdx + |s| <= RxBufSize
  }

  /**
   * The remaining `|s|` bytes of a binary block, when they fit in the buffer
   * from the current index: stored one after another, counted, and the
   * block completed by the last of them.
   */
  lemma {:induction false} RunBlockRest(e: Engine, s: seq<Octet>)
    requires BlockAhead(e, s)
    ensures Run(e, s) == Complete(e, Fill(e.buf, e.rxBufIdx, s), (e.buffered + |s|) % 0x100)
    decreases |s|, 1
  {
    if |s| == 1 {
      BlockLast(e, s);
    } else {
      BlockStep(e, s);
    }
  }

  /** The step of `RunBlockRest`: the first byte, then the rest of the block. */
  lemma {:induction false} BlockStep(e: Engine, s: seq<Octet>)
    requires BlockAhead(e, s) && 1 < |s|
    ensures Run(e, s) == Complete(e, Fill(e.buf, e.rxBufIdx, s), (e.buffered + |s|) % 0x100)
    decreases |s|, 0
  {
    var e1 := BlockNext(e, s);
    BlockCloses(e, e1, s, Fill(e.buf, e.rxBufIdx, s));
    BlockNextRuns(e, s, e1);
    RunBlockRest(e1, s[1..]);
  }

  /** Completing the rest `s[1..]` of a block after one more counted byte completes the whole block `s`. */
  lemma BlockCloses(e: Engine, e1: Engine, s: seq<Octet>, b: seq<Octet>)
    requires 0 < |s|
    requires Valid(e.(buf := b, rxBufIdx := 0))
    requires e1 == e.(buf := e1.buf, rxBufIdx := e1.rxBufIdx, binaryRead := e1.binaryRead,
                      buffered := (e.buffered + 1) % 0x100)
    ensures Valid(e1.(buf := b, rxBufIdx := 0))
    ensures Complete(e1, b, (e1.buffered + |s[1..]|) % 0x100) == Complete(e, b, (e.buffered + |s|) % 0x100)
  {
    CountStep(e.buffered, |s| - 1);
    CompleteReads(e, e1.buf, e1.rxBufIdx, e1.binaryRead, e1.buffered, b, (e.buffered + |s|) % 0x100);
  }

  /**
   * Fewer bytes than the block still announces: each is stored and counted,
   * the reader keeps waiting for the rest, and nothing is delivered early.
   */
  lemma {:induction false} RunBlockWaits(e: Engine, s: seq<Octet>)
    requires Valid(e) && |s| < e.binaryRead && e.rxBufIdx + |s| < RxBufSize
    ensures Run(e, s) == Done(e.(buf := Fill(e.buf, e.rxBufIdx, s), rxBufIdx := e.rxBufIdx + |s|,
                                 binaryRead := e.binaryRead - |s|, buffered := (e.buffered + |s|) % 0x100), "", [])
    decreases |s|
  {
    if |s| > 0 {
      var e1 := WaitNext(e, s);
      RunBlockWaits(e1, s[1..]);
      CountStep(e.buffered, |s| - 1);
    }
  }

  /** The last byte of a block completes it. */
  lemma BlockLast(e: Engine, s: seq<Octet>)
    requires Valid(e) && e.binaryRead == 1 && |s| == 1
    ensures Run(e, s) == Complete(e, Fill(e.buf, e.rxBufIdx, s), (e.buffered + |s|) % 0x100)
  {
    assert s[1..] == [];
    JoinNothing(Step(e, s[0]));
  }

  /** A byte of a block before its last one is stored and counted. */
  lemma BlockNext(e: Engine, s: seq<Octet>) returns (e1: Engine)
    requires BlockAhead(e, s) && 1 < |s|
    ensures e1 == e.(buf := Store(e.buf, e.rxBufIdx, s[0]), rxBufIdx := e.rxBufIdx + 1,
                     binaryRead := e.binaryRead - 1, buffered := (e.buffered + 1) % 0x100)
    ensures BlockAhead(e1, s[1..])
    ensures Fill(e.buf, e.rxBufIdx, s) == Fill(e1.buf, e1.rxBufIdx, s[1..])
  {
    e1 := e.(buf := Store(e.buf, e.rxBufIdx, s[0]), rxBufIdx := e.rxBufIdx + 1,
             binaryRead := e.binaryRead - 1, buffered := (e.buffered + 1) % 0x100);
  }

  /** ... and nothing else happens: reading it leaves the rest of the block to read. */
  lemma BlockNextRuns(e: Engine, s: seq<Octet>, e1: Engine)
    requires BlockAhead(e, s) && 1 < |s|
    requires e1 == e.(buf := Store(e.buf, e.rxBufIdx, s[0]), rxBufIdx := e.rxBufIdx + 1,
                      binaryRead := e.binaryRead - 1, buffered := (e.buffered + 1) % 0x100)
    ensures Run(e, s) == Run(e1, s[1..])
  {
    assert Step(e, s[0]) == Done(e1, "", []);
    JoinNothing(Run(e1, s[1..]));
  }

  /** A byte of a block that is not its last, with more of the block still to come. */
  lemma WaitNext(e: Engine, s: seq<Octet>) returns (e1: Engine)
    requires Valid(e) && 0 < |s| < e.binaryRead && e.rxBufIdx + |s| < RxBufSize
    ensures e1 == e.(buf := Store(e.buf, e.rxBufIdx, s[0]), rxBufIdx := e.rxBufIdx + 1,
                     binaryRead := e.binaryRead - 1, buffered := (e.buffered + 1) % 0x100)
    ensures Valid(e1) && Run(e, s) == Run(e1, s[1..])
    ensures Fill(e.buf, e.rxBufIdx, s) == Fill(e1.buf, e.rxBufIdx + 1, s[1..])
  {
    e1 := e.(buf := Store(e.buf, e.rxBufIdx, s[0]), rxBufIdx := e.rxBufIdx + 1,
             binaryRead := e.binaryRead - 1, buffered := (e.buffered + 1) % 0x100);
    assert Step(e, s[0]) == Done(e1, "", []);
    JoinNothing(Run(e1, s[1..]));
  }

  /** Completing a block reads only the slot table and the slot the block is for. */
  lemma CompleteReads(e: Engine, b0: seq<Octet>, i0: uint8, n0: uint8, k0: uint8, b: seq<Octet>, count: uint8)
    requires Valid(e.(buf := b, rxBufIdx := 0))
    ensures Complete(e.(buf := b0, rxBufIdx := i0, binaryRead := n0, buffered := k0), b, count) == Complete(e, b, count)
  {
  }

  /**
   * A binary block of L bytes (at most the buffer size) announced by a header
   * and read from the start of the buffer: the buffer then holds exactly those
   * bytes first, and the block is completed with the running count.
   */
  lemma RunBlock(e: Engine, block: seq<Octet>)
    requires Valid(e) && e.rxBufIdx == 0
    requires 0 < |block| <= RxBufSize && e.binaryRead == |block|
    ensures Fill(e.buf, 0, block)[..|block|] == block
    ensures Run(e, block) == Complete(e, Fill(e.buf, 0, block), (e.buffered + |block|) % 0x100)
  {
    RunBlockRest(e, block);
    FillHolds(e.buf, 0, block);
  }

  /** The 8-bit count of a block, one byte after another. */
  lemma CountStep(x: nat, n: nat)
    ensures (((x + 1) % 0x100) + n) % 0x100 == (x + n + 1) % 0x100
  {
  }

  // ---------------------------------------------------------------------
  // What reading never does

  /** Reading bytes only ever adds readiness flags. */
  lemma {:induction false} RunKeepsFlags(e: Engine, input: seq<Octet>)
    requires Valid(e)
    ensures var r := Run(e, input); r.Done? ==> r.engine.urcSeen & e.urcSeen == e.urcSeen
    decreases |input|
  {
    if |input| > 0 {
      var r0 := Step(e, input[0]);
      if r0.Done? {
        StepKeepsFlags(e, input[0]);
        RunKeepsFlags(r0.engine, input[1..]);
      }
    }
  }

  lemma StepKeepsFlags(e: Engine, c: Octet)
    requires Valid(e)
    ensures var r := Step(e, c); r.Done? ==> r.engine.urcSeen & e.urcSeen == e.urcSeen
  {
    var f := StepFlag(e, c);
    OrKeeps(e.urcSeen, f);
  }

  /** One byte ors at most one flag `f` into `urcSeen` and clears none. */
  lemma StepFlag(e: Engine, c: Octet) returns (f: bv16)
    requires Valid(e)
    ensures var r := Step(e, c); r.Done? ==> r.engine.urcSeen == e.urcSeen | f
  {
    f := 0;
    if e.binaryRead == 0 && c == LF && e.rxBufIdx > 0 {
      var b := Store(e.buf, e.rxBufIdx, LF);
      var line := b[..e.rxBufIdx + 1];
      var u := Classify(line, e.outstandingOk);
      ApplyCounters(e.(buf := b), u, line);
      if u.Ready? {
        f := u.flag;
      }
    }
  }

  lemma OrKeeps(x: bv16, f: bv16)
    ensures (x | f) & x == x
  {
  }

  /**
   * Reading bytes never raises the count of outstanding acknowledgements:
   * only requests raise it. Each OK/ERROR line read while it is positive
   * lowers it by one.
   */
  lemma {:induction false} RunNeverRaisesAcks(e: Engine, input: seq<Octet>)
    requires Valid(e)
    ensures var r := Run(e, input); r.Done? ==> r.engine.outstandingOk <= e.outstandingOk
    decreases |input|
  {
    if |input| > 0 {
      var r0 := Step(e, input[0]);
      if r0.Done? {
        StepAcks(e, input[0]);
        RunNeverRaisesAcks(r0.engine, input[1..]);
      }
    }
  }

  /** One byte lowers the counter by one exactly when it completes an OK/ERROR line while the counter is positive. */
  lemma StepAcks(e: Engine, c: Octet)
    requires Valid(e)
    ensures var r := Step(e, c);
            var line := if e.binaryRead == 0 && c == LF then Store(e.buf, e.rxBufIdx, LF)[..e.rxBufIdx + 1] else [];
            r.Done? ==>
              r.engine.outstandingOk ==
                (if e.binaryRead == 0 && c == LF && e.rxBufIdx > 0 && e.outstandingOk > 0
                    && (MatchAt(line, 0, "OK") || MatchAt(line, 0, "ERROR"))
                 then e.outstandingOk - 1
                 else e.outstandingOk)
  {
    if e.binaryRead == 0 && c == LF && e.rxBufIdx > 0 {
      var b := Store(e.buf, e.rxBufIdx, LF);
      var line := b[..e.rxBufIdx + 1];
      var u := Classify(line, e.outstandingOk);
      ApplyCounters(e.(buf := b), u, line);
      if e.outstandingOk > 0 && (MatchAt(line, 0, "OK") || MatchAt(line, 0, "ERROR")) {
        assert u == Ack by {
          if MatchAt(line, 0, "OK") {
            assert line[0] == 'O';
          } else {
            assert line[0] == 'E';
          }
        }
      }
    }
  }

  /** A poll with nothing to read only runs the timeout monitor. */
  lemma PollEmpty(e: Engine, now: uint32)
    requires Valid(e)
    ensures Poll(e, now, []) == Done(CheckTimeout(e, now).engine, "", [])
  {
  }

  // ---------------------------------------------------------------------
  // The terminator store of the source

  /**
   * With the stores written as in the source, the hundredth byte of a frame
   * puts its terminator at `modemrxbuf[100]`, one past the end: any 99 text
   * bytes without a line feed (and not starting with a line break) lead there.
   */
  lemma LongFrameOverruns(e: Engine, s: seq<Octet>, c: Octet)
    requires Valid(e) && e.binaryRead == 0 && e.rxBufIdx == 0
    requires |s| == RxBufSize - 1 && s[0] != CR
    requires forall j :: 0 <= j < |s| ==> s[j] != LF
    ensures var r := Run(e, s);
            && r.Done? && r.engine.rxBufIdx == RxBufSize - 1
            && StoreAsWritten(r.engine.buf, r.engine.rxBufIdx, c).None?
  {
    RunCollects(e, s);
  }
}
