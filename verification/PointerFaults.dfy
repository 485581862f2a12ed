/** The pointer store after an append that failed with a plain I/O error: it keeps running on an unchanged
    state, and the next line is written behind whatever the failed one left in the file. */
module PointerFaults {
  import opened Base
  import opened Identity
  import opened Certificates
  import opened Pointer
  import Protocol

  function FullLine(sha: Bytes -> Digest, r: Record): string { Line(sha, r) + "\n" }

  /** The log, k characters of the first line, none to all of them, then the second line. */
  function Continued(sha: Bytes -> Digest, h: seq<Record>, first: Record, second: Record, k: nat): string
    requires k <= |FullLine(sha, first)|
  {
    Document(sha, h) + (FullLine(sha, first)[..k] + FullLine(sha, second))
  }

  // ----- fields --------------------------------------------------------------

  function Count(s: string, c: char): nat {
    if s == "" then 0 else (if s[0] == c then 1 else 0) + Count(s[1..], c)
  }

  lemma {:induction false} CountConcat(a: string, b: string, c: char)
    ensures Count(a + b, c) == Count(a, c) + Count(b, c)
  {
    if a == "" {
      assert a + b == b;
    } else {
      assert (a + b)[1..] == a[1..] + b && (a + b)[0] == a[0];
      CountConcat(a[1..], b, c);
    }
  }

  lemma {:induction false} CountZero(s: string, c: char)
    ensures Count(s, c) == 0 <==> Free(s, c)
  {
    if s != "" {
      CountZero(s[1..], c);
      assert s == [s[0]] + s[1..];
    }
  }

  lemma {:induction false} FieldCount(s: string, c: char)
    ensures |Split(s, c)| == 1 + Count(s, c)
    decreases |s|
  {
    var i := Find(s, c);
    CountZero(s[..i], c);
    CountConcat(s[..i], s[i..], c);
    assert s == s[..i] + s[i..];
    if i < |s| {
      assert s[i..][0] == c && s[i..][1..] == s[i + 1..];
      FieldCount(s[i + 1..], c);
    }
  }

  lemma LineHasFiveBars(sha: Bytes -> Digest, r: Record)
    requires CleanRecord(r)
    ensures Count(Line(sha, r), '|') == 5
  {
    hide Line, Split, CleanRecord;
    LineSplits(sha, r);
    FieldCount(Line(sha, r), '|');
  }

  /** A bar in front makes too many fields. */
  lemma BarInFront(sha: Bytes -> Digest, s: State, p: string, r: Record)
    requires CleanRecord(r) && !Free(p, '|')
    ensures RecoverLine(sha, s, p + Line(sha, r)) == Err(WalCorrupt)
  {
    hide Line, Split, CleanRecord, FindLast, Checksum;
    LineHasFiveBars(sha, r);
    CountZero(p, '|');
    CountConcat(p, Line(sha, r), '|');
    FieldCount(p + Line(sha, r), '|');
  }

  /** Characters in front of the first field change the payload but not the checksum. */
  lemma DigitsInFront(sha: Bytes -> Digest, s: State, p: string, r: Record)
    requires CleanRecord(r) && Free(p, '|') && p != ""
    requires CollisionFree(sha, {Ascii(p + Payload(r)), Ascii(Payload(r))})
    ensures RecoverLine(sha, s, p + Line(sha, r)) == Err(WalCorrupt)
  {
    hide Split, CleanRecord, FindLast, CollisionFree, IsContentId;
    var line := p + Line(sha, r);
    var sum := Checksum(sha, Payload(r));
    HexIsClean(sha(Ascii(Payload(r))));
    assert line == (p + Payload(r)) + ['|'] + sum;
    LastAfter(p + Payload(r), '|', sum);
    assert line[..|p + Payload(r)|] == p + Payload(r);
    FieldsBehind(sha, p, r);
    OtherChecksum(sha, p + Payload(r), Payload(r));
  }

  lemma FieldsBehind(sha: Bytes -> Digest, p: string, r: Record)
    requires CleanRecord(r) && Free(p, '|')
    ensures var f := Split(p + Line(sha, r), '|'); |f| == 6 && f[5] == Checksum(sha, Payload(r))
  {
    hide Split, IsContentId;
    var d := Protocol.Decimal(r.height);
    var rest := r.parent + "|" + (r.next + "|" + (r.optimizer + "|" + r.applyQcId));
    var tail := rest + "|" + Checksum(sha, Payload(r));
    DecimalIsClean(r.height);
    assert Line(sha, r) == d + ['|'] + tail;
    assert p + Line(sha, r) == (p + d) + ['|'] + tail;
    FreeConcat(p, d, '|');
    SplitStep(p + d, '|', tail);
    SplitStep(d, '|', tail);
    LineSplits(sha, r);
    assert Split(tail, '|') == Split(Line(sha, r), '|')[1..];
    assert ([p + d] + Split(tail, '|'))[5] == Split(tail, '|')[4];
  }

  lemma OtherChecksum(sha: Bytes -> Digest, x: string, y: string)
    requires CollisionFree(sha, {Ascii(x), Ascii(y)}) && |x| != |y|
    ensures Checksum(sha, x) != Checksum(sha, y)
  {
    UnhexOfHex(sha(Ascii(x)));
    UnhexOfHex(sha(Ascii(y)));
  }

  // ----- behind the log --------------------------------------------------------

  lemma {:induction false} RecoverBehind(sha: Bytes -> Digest, s: State, h: seq<Record>, rest: string)
    requires IsContentId(s.checkpointId) && Chain(s, h)
    ensures RecoverLines(sha, s, Document(sha, h) + rest) == RecoverLines(sha, Final(s, h), rest)
    decreases |h|
  {
    hide IsContentId, Line, RecoverLine;
    if h == [] {
      assert "" + rest == rest;
    } else {
      var line, more := Line(sha, h[0]), Document(sha, h[1..]) + rest;
      LineHasNoBreak(sha, h[0]);
      assert Document(sha, h) + rest == line + ['\n'] + more;
      OneLineThen(sha, s, line, more);
      LineIsReadBack(sha, s, h[0]);
      RecoverBehind(sha, After(h[0]), h[1..], rest);
    }
  }

  /** Recovery after the outcome of one line. */
  function GoOn(sha: Bytes -> Digest, r: Result<State, PointerError>, more: string): Result<State, PointerError> {
    match r
    case Err(e) => Err(e)
    case Ok(next) => RecoverLines(sha, next, more)
  }

  lemma OneLineThen(sha: Bytes -> Digest, s: State, line: string, more: string)
    requires Free(line, '\n')
    ensures RecoverLines(sha, s, line + ['\n'] + more) == GoOn(sha, RecoverLine(sha, s, line), more)
  {
    hide RecoverLine, Find;
    var d := line + ['\n'] + more;
    FindAfter(line, '\n', more);
    assert d[..|line|] == line && d[|line| + 1..] == more && |d| == |line| + 1 + |more|;
  }

  lemma EndsInBreak(d: string)
    requires d != "" && d[|d| - 1] == '\n'
    ensures Retained(d) == d
  {
    assert d[..|d|] == d;
  }

  // ----- every outcome -----------------------------------------------------------

  /** Both records were accepted on the state the log leads to. */
  ghost predicate BothPlanned(s: State, first: Record, second: Record) {
    IsContentId(s.checkpointId) && Extends(s, first) && Extends(s, second)
  }

  /** The strings whose digests must not coincide; only prefixes inside the first field matter. */
  ghost predicate Distinguishable(sha: Bytes -> Digest, first: Record, second: Record, k: nat)
    requires k <= |FullLine(sha, first)|
  {
    CollisionFree(sha, {Ascii(FullLine(sha, first)[..k] + Payload(second)), Ascii(Payload(second))})
  }

  /** Part of a line in front of the next one: the file is refused. */
  lemma PartialLineIsCorrupt(sha: Bytes -> Digest, s: State, first: Record, second: Record, k: nat)
    requires BothPlanned(s, first, second) && 0 < k <= |Line(sha, first)| && Distinguishable(sha, first, second, k)
    ensures RecoverLines(sha, s, FullLine(sha, first)[..k] + FullLine(sha, second)) == Err(WalCorrupt)
  {
    hide IsContentId, Line, RecoverLine, Payload, CollisionFree, Distinguishable;
    var p := FullLine(sha, first)[..k];
    ProperPrefixIsTorn(sha, first, k);
    LineHasNoBreak(sha, second);
    FreeConcat(p, Line(sha, second), '\n');
    assert p + FullLine(sha, second) == (p + Line(sha, second)) + ['\n'] + "";
    OneLineThen(sha, s, p + Line(sha, second), "");
    if Free(p, '|') { UseDigits(sha, s, first, second, k); } else { BarInFront(sha, s, p, second); }
  }

  lemma UseDigits(sha: Bytes -> Digest, s: State, first: Record, second: Record, k: nat)
    requires BothPlanned(s, first, second) && 0 < k <= |Line(sha, first)| && Distinguishable(sha, first, second, k)
    requires Free(FullLine(sha, first)[..k], '|')
    ensures RecoverLine(sha, s, FullLine(sha, first)[..k] + Line(sha, second)) == Err(WalCorrupt)
  {
    hide IsContentId, Line, RecoverLine, Payload, CollisionFree;
    DigitsInFront(sha, s, FullLine(sha, first)[..k], second);
  }

  /** The whole first line: the second must extend it as well. */
  lemma WholeLineThen(sha: Bytes -> Digest, s: State, first: Record, second: Record)
    requires BothPlanned(s, first, second)
    ensures RecoverLines(sha, s, FullLine(sha, first) + FullLine(sha, second))
         == if Extends(After(first), second) then Ok(After(second)) else Err(RecoveryMismatch)
  {
    hide IsContentId, Line, RecoverLine;
    LineHasNoBreak(sha, first);
    LineHasNoBreak(sha, second);
    assert FullLine(sha, first) + FullLine(sha, second) == Line(sha, first) + ['\n'] + FullLine(sha, second);
    OneLineThen(sha, s, Line(sha, first), FullLine(sha, second));
    LineIsReadBack(sha, s, first);
    assert FullLine(sha, second) == Line(sha, second) + ['\n'] + "";
    OneLineThen(sha, After(first), Line(sha, second), "");
    NoMoreLines(sha, After(second));
    LineIsChecked(sha, s, After(first), second);
  }

  /** A written line is read on any state: accepted if it extends it, refused otherwise. */
  lemma LineIsChecked(sha: Bytes -> Digest, s: State, t: State, r: Record)
    requires IsContentId(s.checkpointId) && Extends(s, r)
    ensures RecoverLine(sha, t, Line(sha, r)) == if Extends(t, r) then Ok(After(r)) else Err(RecoveryMismatch)
  {
    hide IsContentId, Split, Line, Payload, Checksum;
    LineSplits(sha, r);
    PayloadIsCutOff(sha, r);
    Protocol.DecimalRoundTrip(Protocol.Decimal(r.height), r.height);
  }

  lemma OnlySecond(sha: Bytes -> Digest, s: State, first: Record, second: Record)
    requires BothPlanned(s, first, second)
    ensures RecoverLines(sha, s, FullLine(sha, second)) == Ok(After(second))
  {
    hide IsContentId, Line, RecoverLine;
    LineHasNoBreak(sha, second);
    assert FullLine(sha, second) == Line(sha, second) + ['\n'] + "";
    OneLineThen(sha, s, Line(sha, second), "");
    LineIsReadBack(sha, s, second);
    NoMoreLines(sha, After(second));
  }

  /** Behind any log, for every length k that a failed append of one accepted record left and a second
      accepted record behind it:
      nothing - the second is the state;
      part of the line - the file is refused, unless two digests coincide;
      the whole line - the second is the state if it extends the first as well, and the file is refused
      otherwise. */
  lemma ContinuedOutcome(sha: Bytes -> Digest, initial: State, h: seq<Record>, first: Record, second: Record, k: nat)
    requires ValidState(initial) && Chain(initial, h) && BothPlanned(Final(initial, h), first, second)
    requires k <= |FullLine(sha, first)| && Distinguishable(sha, first, second, k)
    ensures var d := Continued(sha, h, first, second, k); var r := Open(sha, initial, d);
            && (k == 0 ==> r == Ok(Store(After(second), d)))
            && (0 < k < |FullLine(sha, first)| ==> r == Err(WalCorrupt))
            && (k == |FullLine(sha, first)| ==>
                  r == if Extends(After(first), second) then Ok(Store(After(second), d)) else Err(RecoveryMismatch))
  {
    hide IsContentId, Chain, Document, Final, RecoverLines, Extends, Line, Retained, Distinguishable;
    var d, tail := Continued(sha, h, first, second, k), FullLine(sha, first)[..k] + FullLine(sha, second);
    var s := Final(initial, h);
    RecoverBehind(sha, initial, h, tail);
    assert d[|d| - 1] == '\n';
    EndsInBreak(d);
    if k == 0 {
      assert tail == FullLine(sha, second);
      OnlySecond(sha, s, first, second);
    } else if k == |FullLine(sha, first)| {
      assert FullLine(sha, first)[..k] == FullLine(sha, first);
      WholeLineThen(sha, s, first, second);
    } else {
      PartialLineIsCorrupt(sha, s, first, second, k);
    }
  }

  /** So the store can be opened again if and only if the failed append left nothing, or its whole line
      with a checkpoint equal to its own parent and a smaller height. */
  lemma OpensIff(sha: Bytes -> Digest, initial: State, h: seq<Record>, first: Record, second: Record, k: nat)
    requires ValidState(initial) && Chain(initial, h) && BothPlanned(Final(initial, h), first, second)
    requires k <= |FullLine(sha, first)| && Distinguishable(sha, first, second, k)
    ensures Open(sha, initial, Continued(sha, h, first, second, k)).Ok? <==>
            k == 0 || (k == |FullLine(sha, first)| && first.next == first.parent && first.height < second.height)
  {
    hide IsContentId, Chain, Document, Final, Line, Open, Distinguishable;
    ContinuedOutcome(sha, initial, h, first, second, k);
  }

  /** The running store accepts both records: the failed append leaves its state as it was. */
  lemma RunningStoreAcceptsBoth(sha: Bytes -> Digest, m: Store, c: PointerCommand, qc: ApplyQc, torn: string)
    requires Advance(sha, m, c, qc, NoCrash).reply == Ok(Advanced)
    ensures ApplyQcId(sha, qc).Ok? && Extends(m.state, RecordOf(c, ApplyQcId(sha, qc).value))
    ensures var glued := Advance(sha, m.(document := m.document + torn), c, qc, NoCrash);
            && glued.reply == Ok(Advanced)
            && glued.store.document == m.document + torn + FullLine(sha, RecordOf(c, ApplyQcId(sha, qc).value))
  {
    hide ContextValues, IsContentId, ApplyQcForm, Line, PointerCommandForm;
    AdvanceExtends(sha, m, c, qc, NoCrash);
    var r := RecordOf(c, ApplyQcId(sha, qc).value);
    Window(m.document + torn, Line(sha, r), "\n");
  }
}
