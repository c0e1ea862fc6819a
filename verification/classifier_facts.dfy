/**
 * What the classifier makes of the lines the module actually sends: each
 * notification, rendered in its wire format, is read back into exactly the
 * fields it carries, and dispatching it has the effect the driver documents.
 * Also the dispatch-order facts: a module/MQTT line is never taken for an
 * acknowledgement, and an OK/ERROR line is one exactly while a command is
 * outstanding.
 *
 * Each round trip is proved in three steps kept apart: what the rendered
 * line holds at the fixed offsets, what `strtol` reads there, and what the
 * prefix dispatch does with a line of that shape.
 */
module ClassifierFacts {
  import opened Types
  import opened CText
  import opened Classifier

  /** The prefix of an OPEN result, up to and including the ':'. */
  function OpenTag(sub: bool): (t: string)
    ensures |t| == 12
  {
    if sub then "+EMQSUBOPEN:" else "+EMQPUBOPEN:"
  }

  /** The prefix of a CLOSE result, up to and including the ':'. */
  function CloseTag(sub: bool): (t: string)
    ensures |t| == 13
  {
    if sub then "+EMQSUBCLOSE:" else "+EMQPUBCLOSE:"
  }

  /** An OPEN result, `+EMQSUBOPEN:<idx>,<err>` or `+EMQPUBOPEN:<idx>,<err>`. */
  function OpenLine(sub: bool, idx: nat, err: int): (line: string)
    ensures |line| >= 16
  {
    OpenTag(sub) + Dec(idx) + "," + SignedDec(err) + "\r\n"
  }

  /** A CLOSE result, `+EMQSUBCLOSE:<idx>,<err>` or `+EMQPUBCLOSE:<idx>,<err>`. */
  function CloseLine(sub: bool, idx: nat, err: int): (line: string)
    ensures |line| >= 17
  {
    CloseTag(sub) + Dec(idx) + "," + SignedDec(err) + "\r\n"
  }

  /** A message header, `+EMQ:<idx>,<len>`, announcing a binary block. */
  function HeaderLine(idx: nat, len: nat): (line: string)
    ensures |line| >= 10
  {
    "+EMQ:" + Dec(idx) + "," + Dec(len) + "\r\n"
  }

  /** A state report, `+ETMSTATE: <value>`; the value starts at offset 11. */
  function StateLine(v: int): (line: string)
    ensures |line| >= 14
  {
    "+ETMSTATE: " + SignedDec(v) + "\r\n"
  }

  // ---------------------------------------------------------------------
  // What `strtol` reads from the rendered numbers

  lemma ReadFieldsOf(line: string, k: nat, e: nat, a: int, b: int)
    requires k <= |line| && e + 1 <= |line|
    requires StrToL(line, k) == Parsed(a, e)
    requires StrToL(line, e + 1).value == b
    ensures ReadFields(line, k) == Some(Fields(a, b))
  {
  }

  /** Two runs of digits `<da>,<db>` (the second maybe signed) at offset `k` are read as their values. */
  lemma ReadsRunPairAt(line: string, k: nat, da: string, negative: bool, db: string)
    requires 1 <= |da| && AllDigits(da) && Value(da) <= LongMax
    requires 1 <= |db| && AllDigits(db)
    requires if negative then Value(db) <= -LongMin else Value(db) <= LongMax
    requires var e1 := k + |da|;
             var s := if negative then 1 else 0;
             && e1 + 1 + s + |db| < |line|
             && line[k..e1] == da && line[e1] == ','
             && (negative ==> line[e1 + 1] == '-')
             && line[e1 + 1 + s..e1 + 1 + s + |db|] == db
             && !IsDigit(line[e1 + 1 + s + |db|])
    ensures ReadFields(line, k) == Some(Fields(Value(da), if negative then -(Value(db) as int) else Value(db)))
  {
    var e1 := k + |da|;
    StrToLReadsRun(line, k, false, da);
    StrToLReadsRun(line, e1 + 1, negative, db);
    ReadFieldsOf(line, k, e1, Value(da), if negative then -(Value(db) as int) else Value(db));
  }

  /** The same, for the two runs placed after a prefix `pre` and followed by CR LF. */
  lemma ReadsRunPair(pre: string, da: string, negative: bool, db: string, sb: string)
    requires 1 <= |da| && AllDigits(da) && Value(da) <= LongMax
    requires 1 <= |db| && AllDigits(db)
    requires if negative then Value(db) <= -LongMin else Value(db) <= LongMax
    requires sb == if negative then "-" + db else db
    ensures ReadFields(pre + da + "," + sb + "\r\n", |pre|)
            == Some(Fields(Value(da), if negative then -(Value(db) as int) else Value(db)))
  {
    var line := pre + da + "," + sb + "\r\n";
    var e1 := |pre| + |da|;
    var s := if negative then 1 else 0;
    assert line[|pre|..e1] == da;
    assert line[e1] == ',';
    assert negative ==> line[e1 + 1] == '-';
    var head := pre + da + "," + (if negative then "-" else "");
    assert line == head + db + "\r\n";
    Middle(head, db, "\r\n");
    assert line[e1 + 1 + |sb|] == '\r';
    ReadsRunPairAt(line, |pre|, da, negative, db);
  }

  lemma Middle(x: string, y: string, z: string)
    ensures (x + y + z)[|x|..|x| + |y|] == y
  {
  }

  /** `<a>,<b>` printed after `pre` is read back as the two numbers. */
  lemma ReadsDecPair(pre: string, a: nat, b: int)
    requires a <= LongMax && LongMin <= b <= LongMax
    ensures ReadFields(pre + Dec(a) + "," + SignedDec(b) + "\r\n", |pre|) == Some(Fields(a, b))
  {
    if b < 0 {
      ReadsRunPair(pre, Dec(a), true, Dec(-b), SignedDec(b));
    } else {
      ReadsRunPair(pre, Dec(a), false, Dec(b), SignedDec(b));
    }
  }

  /** A run of digits (maybe signed) printed after `pre` and followed by CR LF is read back by one `strtol`. */
  lemma ReadsRunAfter(pre: string, negative: bool, ds: string, sd: string)
    requires 1 <= |ds| && AllDigits(ds)
    requires if negative then Value(ds) <= -LongMin else Value(ds) <= LongMax
    requires sd == if negative then "-" + ds else ds
    ensures StrToL(pre + sd + "\r\n", |pre|).value == if negative then -(Value(ds) as int) else Value(ds)
  {
    var line := pre + sd + "\r\n";
    var k := |pre|;
    var s := if negative then 1 else 0;
    assert negative ==> line[k] == '-';
    assert line[k + s..k + |sd|] == ds;
    assert line[k + |sd|] == '\r';
    StrToLReadsRun(line, k, negative, ds);
  }

  /** A signed value printed after `pre` is read back by one `strtol`. */
  lemma ReadsSignedDec(pre: string, v: int)
    requires LongMin <= v <= LongMax
    ensures StrToL(pre + SignedDec(v) + "\r\n", |pre|).value == v
  {
    if v < 0 {
      ReadsRunAfter(pre, true, Dec(-v), SignedDec(v));
    } else {
      ReadsRunAfter(pre, false, Dec(v), SignedDec(v));
    }
  }

  // ---------------------------------------------------------------------
  // The prefix dispatch on lines of a given shape

  lemma EtmEntry(line: string, outstanding: uint8)
    requires MatchAt(line, 0, "+ETM")
    ensures Classify(line, outstanding) == ClassifyEtm(line)
  {
  }

  lemma EmqEntry(line: string, outstanding: uint8)
    requires MatchAt(line, 0, "+EMQ")
    ensures Classify(line, outstanding) == ClassifyEmq(line)
  {
    assert line[3] == 'Q';
  }

  lemma OpenEntry(line: string)
    requires MatchAt(line, 0, "+EMQ") && MatchAt(line, 7, "OPEN")
    ensures ClassifyEmq(line) == OpenResult(line)
  {
  }

  lemma CloseEntry(line: string)
    requires MatchAt(line, 0, "+EMQ") && MatchAt(line, 7, "CLOSE")
    ensures ClassifyEmq(line) == CloseResult(line)
  {
    assert line[7] == 'C';
  }

  lemma HeaderEntry(line: string)
    requires MatchAt(line, 0, "+EMQ:") && 7 < |line| && line[7] != 'O' && line[7] != 'C'
    ensures ClassifyEmq(line) == match ReadFields(line, 5)
                                 case None => StaleRead
                                 case Some(f) => MessageHeader(ToUint8(f.first), ToUint8(f.second))
  {
    assert line[4] == ':';
  }

  /** The table an OPEN or CLOSE result names is the one at offset 4. */
  lemma TableAt(line: string, sub: bool)
    requires MatchAt(line, 4, if sub then "SUB" else "PUB")
    ensures MatchAt(line, 4, "SUB") == sub && MatchAt(line, 4, "PUB") == !sub
  {
    assert line[4] == if sub then 'S' else 'P';
  }

  lemma OpenResultOf(line: string, sub: bool, a: int, b: int)
    requires MatchAt(line, 4, if sub then "SUB" else "PUB")
    requires ReadFields(line, 12) == Some(Fields(a, b))
    ensures OpenResult(line) == if sub then SubOpened(ToUint8(a), ToInt8(b)) else PubOpened(ToUint8(a), ToInt8(b))
  {
    TableAt(line, sub);
  }

  lemma CloseResultOf(line: string, sub: bool, a: int, b: int)
    requires MatchAt(line, 4, if sub then "SUB" else "PUB")
    requires ReadFields(line, 13) == Some(Fields(a, b))
    ensures CloseResult(line) == if sub then SubClosed(ToUint8(a), ToInt8(b)) else PubClosed(ToUint8(a), ToInt8(b))
  {
    TableAt(line, sub);
  }

  lemma OpenTagMatches(line: string, sub: bool)
    requires 12 <= |line| && line[..12] == OpenTag(sub)
    ensures MatchAt(line, 0, "+EMQ") && MatchAt(line, 7, "OPEN") && MatchAt(line, 4, if sub then "SUB" else "PUB")
  {
    var p := OpenTag(sub);
    assert line[..4] == p[..4];
    assert line[7..][..4] == p[7..11];
    assert line[4..][..3] == p[4..7];
  }

  lemma CloseTagMatches(line: string, sub: bool)
    requires 13 <= |line| && line[..13] == CloseTag(sub)
    ensures MatchAt(line, 0, "+EMQ") && MatchAt(line, 7, "CLOSE") && MatchAt(line, 4, if sub then "SUB" else "PUB")
  {
    var p := CloseTag(sub);
    assert line[..4] == p[..4];
    assert line[7..][..5] == p[7..12];
    assert line[4..][..3] == p[4..7];
  }

  /** Any line that starts with an OPEN tag and carries two numbers after it. */
  lemma ClassifyOpenAt(line: string, sub: bool, a: int, b: int, outstanding: uint8)
    requires 12 <= |line| && line[..12] == OpenTag(sub)
    requires ReadFields(line, 12) == Some(Fields(a, b))
    ensures Classify(line, outstanding) == if sub then SubOpened(ToUint8(a), ToInt8(b)) else PubOpened(ToUint8(a), ToInt8(b))
  {
    OpenTagMatches(line, sub);
    EmqEntry(line, outstanding);
    OpenEntry(line);
    OpenResultOf(line, sub, a, b);
  }

  /** Any line that starts with a CLOSE tag and carries two numbers after it. */
  lemma ClassifyCloseAt(line: string, sub: bool, a: int, b: int, outstanding: uint8)
    requires 13 <= |line| && line[..13] == CloseTag(sub)
    requires ReadFields(line, 13) == Some(Fields(a, b))
    ensures Classify(line, outstanding) == if sub then SubClosed(ToUint8(a), ToInt8(b)) else PubClosed(ToUint8(a), ToInt8(b))
  {
    CloseTagMatches(line, sub);
    EmqEntry(line, outstanding);
    CloseEntry(line);
    CloseResultOf(line, sub, a, b);
  }

  /** Any line `+EMQ:` whose offset 7 is not an OPEN/CLOSE letter and that carries two numbers at offset 5. */
  lemma ClassifyHeaderAt(line: string, a: int, b: int, outstanding: uint8)
    requires 8 <= |line| && line[..5] == "+EMQ:" && line[7] != 'O' && line[7] != 'C'
    requires ReadFields(line, 5) == Some(Fields(a, b))
    ensures Classify(line, outstanding) == MessageHeader(ToUint8(a), ToUint8(b))
  {
    assert MatchAt(line, 0, "+EMQ") && MatchAt(line, 0, "+EMQ:") by {
      assert line[..4] == line[..5][..4];
    }
    EmqEntry(line, outstanding);
    HeaderEntry(line);
  }

  /** Any line `+ETMSTATE` of at least 11 bytes: the value `strtol` reads at offset 11. */
  lemma ClassifyStateAt(line: string, outstanding: uint8)
    requires 11 <= |line| && line[..9] == "+ETMSTATE"
    ensures Classify(line, outstanding) == StateReport(StrToL(line, 11).value)
  {
    assert MatchAt(line, 0, "+ETM") by {
      assert line[..4] == line[..9][..4];
    }
    assert MatchAt(line, 4, "STATE") by {
      assert line[4..][..5] == line[..9][4..];
    }
    assert line[4] == 'S';
    EtmEntry(line, outstanding);
  }

  // ---------------------------------------------------------------------
  // The round trips

  lemma OpenLineTag(sub: bool, idx: nat, err: int)
    ensures OpenLine(sub, idx, err)[..12] == OpenTag(sub)
  {
  }

  lemma CloseLineTag(sub: bool, idx: nat, err: int)
    ensures CloseLine(sub, idx, err)[..13] == CloseTag(sub)
  {
  }

  /** An OPEN result is read as the table, index and error code it names. */
  lemma ClassifyOpenLine(sub: bool, idx: nat, err: int, outstanding: uint8)
    requires idx <= LongMax && LongMin <= err <= LongMax
    ensures Classify(OpenLine(sub, idx, err), outstanding) ==
            if sub then SubOpened(ToUint8(idx), ToInt8(err)) else PubOpened(ToUint8(idx), ToInt8(err))
  {
    OpenLineTag(sub, idx, err);
    ReadsDecPair(OpenTag(sub), idx, err);
    ClassifyOpenAt(OpenLine(sub, idx, err), sub, idx, err, outstanding);
  }

  /** A CLOSE result is read as the table, index and error code it names. */
  lemma ClassifyCloseLine(sub: bool, idx: nat, err: int, outstanding: uint8)
    requires idx <= LongMax && LongMin <= err <= LongMax
    ensures Classify(CloseLine(sub, idx, err), outstanding) ==
            if sub then SubClosed(ToUint8(idx), ToInt8(err)) else PubClosed(ToUint8(idx), ToInt8(err))
  {
    CloseLineTag(sub, idx, err);
    ReadsDecPair(CloseTag(sub), idx, err);
    ClassifyCloseAt(CloseLine(sub, idx, err), sub, idx, err, outstanding);
  }

  /** After `+EMQ:` come only digits, the comma, CR and LF: never an OPEN/CLOSE letter. */
  lemma HeaderBodyHasNoLetters(d1: string, d2: string)
    requires AllDigits(d1) && AllDigits(d2)
    ensures var s := d1 + "," + d2 + "\r\n";
            forall i :: 0 <= i < |s| ==> s[i] != 'O' && s[i] != 'C'
  {
    var s := d1 + "," + d2 + "\r\n";
    forall i | 0 <= i < |s|
      ensures s[i] != 'O' && s[i] != 'C'
    {
      if i < |d1| {
        assert s[i] == d1[i];
      } else if i == |d1| {
        assert s[i] == ',';
      } else if i < |d1| + 1 + |d2| {
        assert s[i] == d2[i - |d1| - 1];
      } else {
        assert s[i] == "\r\n"[i - |d1| - 1 - |d2|];
      }
    }
  }

  /**
   * A header for a slot and a length below 1000 fits the receive buffer as one
   * frame: it starts with '+', and its only line feed is its last byte.
   */
  lemma HeaderLineFrame(idx: nat, len: nat)
    requires idx < 1000 && len < 1000
    ensures var line := HeaderLine(idx, len);
            && |line| <= 16 && line[0] == '+' && line[|line| - 1] == LF
            && (forall j :: 0 <= j < |line| - 1 ==> line[j] != LF)
            && (forall c :: c in line ==> c as int < 0x100)
  {
    var line := HeaderLine(idx, len);
    var d1 := Dec(idx);
    var d2 := Dec(len);
    DecShort(idx);
    DecShort(len);
    forall j | 0 <= j < |line|
      ensures line[j] as int < 0x100 && (j < |line| - 1 ==> line[j] != LF)
    {
      if j < 5 {
        assert line[j] == "+EMQ:"[j];
      } else if j < 5 + |d1| {
        assert line[j] == d1[j - 5];
      } else if j == 5 + |d1| {
        assert line[j] == ',';
      } else if j < 6 + |d1| + |d2| {
        assert line[j] == d2[j - 6 - |d1|];
      } else {
        assert line[j] == "\r\n"[j - 6 - |d1| - |d2|];
      }
    }
  }

  lemma HeaderLineShape(idx: nat, len: nat)
    ensures var line := HeaderLine(idx, len);
            line[..5] == "+EMQ:" && line[7] != 'O' && line[7] != 'C'
  {
    var line := HeaderLine(idx, len);
    var s := Dec(idx) + "," + Dec(len) + "\r\n";
    HeaderBodyHasNoLetters(Dec(idx), Dec(len));
    assert line == "+EMQ:" + s;
    assert line[7] == s[2];
  }

  /**
   * A message header is read as the slot index and the length it announces,
   * both narrowed to 8 bits: a length of 256 or more is taken modulo 256.
   */
  lemma ClassifyHeaderLine(idx: nat, len: nat, outstanding: uint8)
    requires idx <= LongMax && len <= LongMax
    ensures Classify(HeaderLine(idx, len), outstanding) == MessageHeader(ToUint8(idx), len % 0x100)
  {
    HeaderLineShape(idx, len);
    assert SignedDec(len) == Dec(len);
    ReadsDecPair("+EMQ:", idx, len);
    ClassifyHeaderAt(HeaderLine(idx, len), idx, len, outstanding);
  }

  lemma StateLineTag(v: int)
    ensures StateLine(v)[..9] == "+ETMSTATE"
  {
  }

  /** A state report is read as the value it carries, taken from offset 11. */
  lemma ClassifyStateLine(v: int, outstanding: uint8)
    requires LongMin <= v <= LongMax
    ensures Classify(StateLine(v), outstanding) == StateReport(v)
  {
    StateLineTag(v);
    ReadsSignedDec("+ETMSTATE: ", v);
    ClassifyStateAt(StateLine(v), outstanding);
  }

  // ---------------------------------------------------------------------
  // Dispatch order

  /**
   * A line starting "OK" or "ERROR" (so also "OKAY") is an acknowledgement
   * exactly when one is outstanding; otherwise it is passed on unhandled.
   */
  lemma AckLines(line: string, outstanding: uint8)
    requires MatchAt(line, 0, "OK") || MatchAt(line, 0, "ERROR")
    ensures Classify(line, outstanding) == if outstanding > 0 then Ack else Unhandled
  {
    assert line[0] == 'O' || line[0] == 'E';
  }

  /** A line starting CR LF is the blank-line acknowledgement exactly when one is outstanding. */
  lemma BlankAckLines(line: string, outstanding: uint8)
    requires MatchAt(line, 0, "\r\n")
    ensures Classify(line, outstanding) == if outstanding > 0 then BlankLine else Unhandled
  {
    assert line[0] == CR;
  }

  /** Module and MQTT lines are classified the same whatever the counter, and never as an acknowledgement. */
  lemma ModuleLinesIgnoreCounter(line: string, outstanding: uint8)
    requires MatchAt(line, 0, "+ETM") || MatchAt(line, 0, "+EMQ")
    ensures Classify(line, outstanding) == Classify(line, 0)
    ensures !Classify(line, outstanding).Ack? && !Classify(line, outstanding).BlankLine?
  {
  }

  /** The CR LF acknowledgement needs a line that starts with CR. */
  lemma BlankLineStartsWithCr(line: string, outstanding: uint8)
    requires 0 < |line| && line[0] != CR
    ensures Classify(line, outstanding) != BlankLine
  {
  }

  /** A line starting `p + q` starts with `p` and holds `q` right after it. */
  lemma MatchSplit(line: string, p: string, q: string)
    requires MatchAt(line, 0, p + q)
    ensures MatchAt(line, 0, p) && MatchAt(line, |p|, q)
  {
    assert (p + q)[..|p|] == p;
    assert line[..|p|] == p;
    assert line[|p|..][..|q|] == q by {
      assert line[|p|..][..|q|] == line[|p|..|p| + |q|] == (p + q)[|p|..];
    }
  }

  /**
   * The readiness notifications: `+ETM:IDLE`, `+ETM:EMQRDY` and `+ETM:EURDY`
   * each stand for their own flag, and a `+ETM:` line with any other word,
   * like a `+ETM` line that is neither `+ETM:` nor a state report, is unhandled.
   */
  lemma ReadyLines(line: string, outstanding: uint8)
    ensures MatchAt(line, 0, "+ETM:IDLE") ==> Classify(line, outstanding) == Ready(EtmIdle)
    ensures MatchAt(line, 0, "+ETM:EMQRDY") ==> Classify(line, outstanding) == Ready(EtmMqttRdy)
    ensures MatchAt(line, 0, "+ETM:EURDY") ==> Classify(line, outstanding) == Ready(EtmUdpRdy)
    ensures (MatchAt(line, 0, "+ETM:") && !MatchAt(line, 5, "IDLE") && !MatchAt(line, 5, "EMQRDY")
             && !MatchAt(line, 5, "EURDY")) ==> Classify(line, outstanding) == Unhandled
    ensures (MatchAt(line, 0, "+ETM") && At(line, 4) != ':' && !MatchAt(line, 4, "STATE"))
              ==> Classify(line, outstanding) == Unhandled
  {
    if MatchAt(line, 0, "+ETM:IDLE") {
      assert "+ETM:IDLE" == "+ETM:" + "IDLE";
      MatchSplit(line, "+ETM:", "IDLE");
    }
    if MatchAt(line, 0, "+ETM:EMQRDY") {
      assert "+ETM:EMQRDY" == "+ETM:" + "EMQRDY";
      MatchSplit(line, "+ETM:", "EMQRDY");
      PrefixesDiffer(line[5..], 0, "EMQRDY", "IDLE");
    }
    if MatchAt(line, 0, "+ETM:EURDY") {
      assert "+ETM:EURDY" == "+ETM:" + "EURDY";
      MatchSplit(line, "+ETM:", "EURDY");
      PrefixesDiffer(line[5..], 0, "EURDY", "IDLE");
      PrefixesDiffer(line[5..], 1, "EURDY", "EMQRDY");
    }
    if MatchAt(line, 0, "+ETM:") {
      assert "+ETM:" == "+ETM" + ":";
      MatchSplit(line, "+ETM", ":");
    }
  }

  /** The effect of the readiness notifications: each ors in its flag, and an unknown word is forwarded. */
  lemma DispatchReady(e: Engine, line: string)
    requires Shaped(e)
    ensures MatchAt(line, 0, "+ETM:IDLE") ==> Dispatch(e, line) == Done(e.(rxBufIdx := 0, urcSeen := e.urcSeen | EtmIdle), "", [])
    ensures MatchAt(line, 0, "+ETM:EMQRDY") ==> Dispatch(e, line) == Done(e.(rxBufIdx := 0, urcSeen := e.urcSeen | EtmMqttRdy), "", [])
    ensures MatchAt(line, 0, "+ETM:EURDY") ==> Dispatch(e, line) == Done(e.(rxBufIdx := 0, urcSeen := e.urcSeen | EtmUdpRdy), "", [])
    ensures (MatchAt(line, 0, "+ETM:") && !MatchAt(line, 5, "IDLE") && !MatchAt(line, 5, "EMQRDY") && !MatchAt(line, 5, "EURDY"))
              ==> Dispatch(e, line) == Done(e.(rxBufIdx := 0), "", if e.urcHandler then [Forward(CStr(line))] else [])
  {
    ReadyLines(line, e.outstandingOk);
  }

  /**
   * The send results are consumed without effect, and the BG96 start-up
   * banner `APP RDY` is answered with `ATE0`; none of them is forwarded.
   */
  lemma SendAndBannerLines(e: Engine, line: string)
    requires Shaped(e)
    ensures MatchAt(line, 0, ":SEND OK") ==>
              Classify(line, e.outstandingOk) == SendOk && Dispatch(e, line) == Done(e.(rxBufIdx := 0), "", [])
    ensures MatchAt(line, 0, ":SEND FAIL") ==>
              Classify(line, e.outstandingOk) == SendFail && Dispatch(e, line) == Done(e.(rxBufIdx := 0), "", [])
    ensures MatchAt(line, 0, "APP RDY") ==>
              Classify(line, e.outstandingOk) == AppReady && Dispatch(e, line) == Done(e.(rxBufIdx := 0), "ATE0\r\n", [])
  {
    if MatchAt(line, 0, ":SEND OK") || MatchAt(line, 0, ":SEND FAIL") || MatchAt(line, 0, "APP RDY") {
      assert line[0] == ':' || line[0] == 'A';
    }
  }

  /**
   * A `+EMQ` line that is neither an OPEN nor a CLOSE result nor a message
   * header is unhandled and goes to the unhandled-line callback when one is set.
   */
  lemma {:induction false} UnknownEmqLine(e: Engine, line: string)
    requires Shaped(e) && MatchAt(line, 0, "+EMQ") && 7 <= |line|
    requires !MatchAt(line, 7, "OPEN") && !MatchAt(line, 7, "CLOSE") && line[4] != ':'
    ensures Classify(line, e.outstandingOk) == Unhandled
    ensures Dispatch(e, line) == Done(e.(rxBufIdx := 0), "", if e.urcHandler then [Forward(CStr(line))] else [])
  {
    assert line[0] == '+' && line[1] == 'E' && line[2] == 'M';
  }

  /**
   * A line with none of the known prefixes, and not an acknowledgement that
   * is due, is unhandled and goes to the unhandled-line callback when one is set.
   */
  lemma OtherLinesForwarded(e: Engine, line: string)
    requires Shaped(e)
    requires !MatchAt(line, 0, "+ETM") && !MatchAt(line, 0, "+EMQ")
    requires !MatchAt(line, 0, ":SEND OK") && !MatchAt(line, 0, ":SEND FAIL") && !MatchAt(line, 0, "APP RDY")
    requires e.outstandingOk > 0 ==>
               !MatchAt(line, 0, "OK") && !MatchAt(line, 0, "ERROR") && !MatchAt(line, 0, "\r\n")
    ensures Classify(line, e.outstandingOk) == Unhandled
    ensures Dispatch(e, line) == Done(e.(rxBufIdx := 0), "", if e.urcHandler then [Forward(CStr(line))] else [])
  {
  }

  /** A report of a connectivity phase records that phase's code, which names the phase again. */
  lemma StateReportNamesPhase(e: Engine, s: EtmState)
    requires Shaped(e)
    ensures var r := Dispatch(e, StateLine(s.Code()));
            r.Done? && EtmStateOf(r.engine.currentState) == Some(s)
  {
    DispatchState(e, s.Code());
    EtmStateCodes(s);
  }

  // ---------------------------------------------------------------------
  // The effect of the OPEN and CLOSE results on the tables

  /**
   * A subscribe OPEN result for a slot in range settles that slot: Subscribed
   * for error 0 or -2, the error state for any other code, whatever state the
   * slot was in. Nothing else in the tables changes.
   */
  lemma DispatchSubOpen(e: Engine, idx: nat, err: int)
    requires Shaped(e) && idx < MaxSubTopics && -0x80 <= err < 0x80
    ensures var r := Dispatch(e, OpenLine(true, idx, err));
            && r.Done?
            && r.engine.subs == e.subs[idx := e.subs[idx].(state := if err == 0 || err == -2 then Subscribed else SubError)]
            && r.engine.pubs == e.pubs
  {
    ClassifyOpenLine(true, idx, err, e.outstandingOk);
    ApplySlots(e, SubOpened(idx, err), OpenLine(true, idx, err));
  }

  /** The publish-table counterpart: Registered for error 0 or -2, the error state otherwise. */
  lemma DispatchPubOpen(e: Engine, idx: nat, err: int)
    requires Shaped(e) && idx < MaxPubTopics && -0x80 <= err < 0x80
    ensures var r := Dispatch(e, OpenLine(false, idx, err));
            && r.Done?
            && r.engine.pubs == e.pubs[idx := e.pubs[idx].(state := if err == 0 || err == -2 then Registered else PubError)]
            && r.engine.subs == e.subs
  {
    ClassifyOpenLine(false, idx, err, e.outstandingOk);
    ApplySlots(e, PubOpened(idx, err), OpenLine(false, idx, err));
  }

  /** A CLOSE result frees the slot whatever error code it carries. */
  lemma DispatchClose(e: Engine, sub: bool, idx: nat, err: int)
    requires Shaped(e) && idx < MaxSubTopics && LongMin <= err <= LongMax
    ensures var r := Dispatch(e, CloseLine(sub, idx, err));
            && r.Done?
            && (sub ==> r.engine.subs == e.subs[idx := e.subs[idx].(state := SubNotInUse)] && r.engine.pubs == e.pubs)
            && (!sub ==> r.engine.pubs == e.pubs[idx := e.pubs[idx].(state := PubNotInUse)] && r.engine.subs == e.subs)
  {
    ClassifyCloseLine(sub, idx, err, e.outstandingOk);
    var u := if sub then SubClosed(idx, ToInt8(err)) else PubClosed(idx, ToInt8(err));
    ApplySlots(e, u, CloseLine(sub, idx, err));
  }

  /** An OPEN or CLOSE result naming a slot beyond the table is undefined behaviour. */
  lemma DispatchOutOfRange(e: Engine, sub: bool, idx: nat, err: int)
    requires Shaped(e) && MaxSubTopics <= idx < 0x100 && LongMin <= err <= LongMax
    ensures Dispatch(e, OpenLine(sub, idx, err)).Undefined?
    ensures Dispatch(e, CloseLine(sub, idx, err)).Undefined?
  {
    ClassifyOpenLine(sub, idx, err, e.outstandingOk);
    ClassifyCloseLine(sub, idx, err, e.outstandingOk);
  }

  /** A message header arms the binary reader with the slot and the 8-bit length. */
  lemma DispatchHeader(e: Engine, idx: nat, len: nat)
    requires Shaped(e) && idx <= LongMax && len <= LongMax
    ensures var r := Dispatch(e, HeaderLine(idx, len));
            && r.Done?
            && r.engine.readingSub == idx % 0x100 && r.engine.binaryRead == len % 0x100
            && r.engine.subs == e.subs && r.engine.pubs == e.pubs
  {
    ClassifyHeaderLine(idx, len, e.outstandingOk);
    ApplySlots(e, MessageHeader(ToUint8(idx), len % 0x100), HeaderLine(idx, len));
    ApplyBlock(e, MessageHeader(ToUint8(idx), len % 0x100), HeaderLine(idx, len));
  }

  /** A state report records the value and runs the state-change callback when one is registered. */
  lemma DispatchState(e: Engine, v: int)
    requires Shaped(e) && LongMin <= v <= LongMax
    ensures var r := Dispatch(e, StateLine(v));
            && r.Done? && r.engine.currentState == v
            && r.events == (if e.stateHandler then [StateChanged] else [])
            && r.engine.subs == e.subs && r.engine.pubs == e.pubs
            && r.engine.outstandingOk == e.outstandingOk
  {
    ClassifyStateLine(v, e.outstandingOk);
    ApplySlots(e, StateReport(v), StateLine(v));
    ApplyCounters(e, StateReport(v), StateLine(v));
    ApplyOutputs(e, StateReport(v), StateLine(v));
  }
}
