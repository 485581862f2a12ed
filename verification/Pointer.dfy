/** The current-pointer store: a text log with checksummed lines and a compare-and-set. */
module Pointer {
  import opened Base
  import opened Identity
  import opened Merkle
  import opened Certificates
  import Protocol

  datatype PointerError =
    | Certificate(code: CertificateError) | RequestConflict | RecoveryMismatch | WalCorrupt | InvalidConfig | SimulatedCrash

  datatype State = State(checkpointId: string, optimizerId: string, applyQcId: string, height: u64)

  // ----- text --------------------------------------------------------------

  /** The first position of a character, or the length. */
  function Find(s: string, c: char): (i: nat)
    ensures i <= |s| && (i < |s| ==> s[i] == c)
    ensures forall j :: 0 <= j < i ==> s[j] != c
  {
    if s == "" || s[0] == c then 0 else 1 + Find(s[1..], c)
  }

  /** One past the last position of a character, or zero. */
  function FindLast(s: string, c: char): (i: nat)
    ensures i <= |s| && (i > 0 ==> s[i - 1] == c)
    ensures forall j :: i <= j < |s| ==> s[j] != c
  {
    if s == "" then 0 else if s[|s| - 1] == c then |s| else FindLast(s[..|s| - 1], c)
  }

  function Split(s: string, c: char): seq<string>
    decreases |s|
  {
    var i := Find(s, c);
    if i == |s| then [s] else [s[..i]] + Split(s[i + 1..], c)
  }

  lemma {:induction false} FindAfter(a: string, c: char, b: string)
    requires Free(a, c)
    ensures Find(a + [c] + b, c) == |a|
  {
    var s := a + [c] + b;
    if a == "" {
      assert s[0] == c;
    } else {
      FindAfter(a[1..], c, b);
      assert s[0] == a[0];
      assert s[1..] == a[1..] + [c] + b;
    }
  }

  lemma SplitStep(a: string, c: char, b: string)
    requires Free(a, c)
    ensures Split(a + [c] + b, c) == [a] + Split(b, c)
  {
    FindAfter(a, c, b);
    var s := a + [c] + b;
    assert s[..|a|] == a && s[|a| + 1..] == b;
  }

  lemma SplitWhole(a: string, c: char)
    requires Free(a, c)
    ensures Split(a, c) == [a]
  {
  }

  lemma {:induction false} LastAfter(a: string, c: char, b: string)
    requires Free(b, c)
    ensures FindLast(a + [c] + b, c) == |a| + 1
    decreases |b|
  {
    var s := a + [c] + b;
    if b == "" {
      assert s[|s| - 1] == c;
    } else {
      LastAfter(a, c, b[..|b| - 1]);
      assert s[|s| - 1] == b[|b| - 1];
      assert s[..|s| - 1] == a + [c] + b[..|b| - 1];
    }
  }

  // ----- lines -------------------------------------------------------------

  /** What one line of the log records. */
  datatype Record = Record(height: u64, parent: string, next: string, optimizer: string, applyQcId: string)

  function Checksum(sha: Bytes -> Digest, payload: string): string { Hex(sha(Ascii(payload))) }

  function Payload(r: Record): string {
    Protocol.Decimal(r.height) + "|" + (r.parent + "|" + (r.next + "|" + (r.optimizer + "|" + r.applyQcId)))
  }

  function Line(sha: Bytes -> Digest, r: Record): string { Payload(r) + "|" + Checksum(sha, Payload(r)) }

  function After(r: Record): State { State(r.next, r.optimizer, r.applyQcId, r.height) }

  /** The record may follow the state. */
  predicate Extends(s: State, r: Record) {
    && r.height > s.height && r.parent == s.checkpointId
    && IsContentId(r.next) && IsContentId(r.optimizer) && IsContentId(r.applyQcId)
  }

  predicate ValidState(s: State) {
    IsContentId(s.checkpointId) && IsContentId(s.optimizerId) && (s.applyQcId == "" || IsContentId(s.applyQcId))
  }

  // ----- recovery ----------------------------------------------------------

  function RecoverLine(sha: Bytes -> Digest, s: State, line: string): Result<State, PointerError> {
    var fields := Split(line, '|');
    var _ :- Require(|fields| == 6, WalCorrupt);
    var last := FindLast(line, '|');
    var payload := if last == 0 then line else line[..last - 1];
    var _ :- Require(Checksum(sha, payload) == fields[5], WalCorrupt);
    match Protocol.ParseU64(fields[0])
    case Err(_) => Err(WalCorrupt)
    case Ok(height) =>
      var r := Record(height, fields[1], fields[2], fields[3], fields[4]);
      var _ :- Require(Extends(s, r), RecoveryMismatch);
      Ok(After(r))
  }

  function RecoverLines(sha: Bytes -> Digest, s: State, document: string): Result<State, PointerError>
    decreases |document|
  {
    if document == "" then Ok(s)
    else
      var end := Find(document, '\n');
      var _ :- Require(end < |document|, WalCorrupt);
      var next :- RecoverLine(sha, s, document[..end]);
      RecoverLines(sha, next, document[end + 1..])
  }

  /** A torn tail is cut back to the last line break, in the file as well. */
  function Retained(document: string): string { document[..FindLast(document, '\n')] }

  function Recover(sha: Bytes -> Digest, initial: State, document: string): Result<State, PointerError> {
    RecoverLines(sha, initial, Retained(document))
  }

  /** Opening the store on its file. */
  function Open(sha: Bytes -> Digest, initial: State, document: string): Result<Store, PointerError> {
    var _ :- Require(ValidState(initial), InvalidConfig);
    var state :- Recover(sha, initial, document);
    Ok(Store(state, Retained(document)))
  }

  // ----- advance -----------------------------------------------------------

  datatype Disposition = Advanced | Replayed

  /** Where the process dies, if it does; `torn` is what a torn append left in the file. */
  datatype Crash = NoCrash | BeforeDurability | During(torn: string) | AfterDurability | AfterCommit

  datatype Store = Store(state: State, document: string)

  datatype Advancing = Advancing(store: Store, reply: Result<Disposition, PointerError>)

  function RecordOf(c: PointerCommand, qcId: string): Record {
    Record(c.context.height, c.expectedParent, c.nextCheckpoint, c.nextOptimizer, qcId)
  }

  predicate Authorized(c: PointerCommand, qc: ApplyQc, qcId: string) {
    && c.applyQcId == qcId && c.context == qc.context && c.expectedParent == qc.parentCheckpointId
    && c.nextCheckpoint == qc.nextModelHash && c.nextOptimizer == qc.nextOptimizerHash
  }

  /** `advance`. */
  function Advance(sha: Bytes -> Digest, m: Store, c: PointerCommand, qc: ApplyQc, crash: Crash): Advancing {
    match (PointerCommandId(sha, c), ApplyQcId(sha, qc))
    case (Err(e), _) => Advancing(m, Err(Certificate(e)))
    case (Ok(_), Err(e)) => Advancing(m, Err(Certificate(e)))
    case (Ok(_), Ok(qcId)) =>
      if !Authorized(c, qc, qcId) then Advancing(m, Err(RequestConflict))
      else if m.state.applyQcId == qcId then
        if m.state.checkpointId == c.nextCheckpoint && m.state.optimizerId == c.nextOptimizer && m.state.height == c.context.height
        then Advancing(m, Ok(Replayed)) else Advancing(m, Err(RecoveryMismatch))
      else if !(c.expectedParent == m.state.checkpointId && c.context.height > m.state.height) then
        Advancing(m, Err(RequestConflict))
      else
        var r := RecordOf(c, qcId);
        var written := m.document + Line(sha, r) + "\n";
        match crash
        case BeforeDurability => Advancing(m, Err(SimulatedCrash))
        case During(torn) => Advancing(m.(document := m.document + torn), Err(SimulatedCrash))
        case AfterDurability => Advancing(m.(document := written), Err(SimulatedCrash))
        case AfterCommit => Advancing(Store(After(r), written), Err(SimulatedCrash))
        case NoCrash => Advancing(Store(After(r), written), Ok(Advanced))
  }

  lemma OneLine(sha: Bytes -> Digest, s: State, file: string, begin: nat, end: nat)
    requires begin < |file| && end == Find(file[begin..], '\n')
    ensures begin + end == |file| ==> RecoverLines(sha, s, file[begin..]) == Err(WalCorrupt)
    ensures begin + end < |file| ==>
              RecoverLines(sha, s, file[begin..]) == match RecoverLine(sha, s, file[begin..begin + end])
                                                     case Err(e) => Err(e)
                                                     case Ok(next) => RecoverLines(sha, next, file[begin + end + 1..])
  {
    hide RecoverLine, Find;
    if begin + end < |file| {
      assert file[begin..][..end] == file[begin..begin + end] && file[begin..][end + 1..] == file[begin + end + 1..];
    }
  }

  /** The loop over complete lines. */
  method ReadLines(sha: Bytes -> Digest, initial: State, file: string) returns (r: Result<State, PointerError>)
    ensures r == RecoverLines(sha, initial, file)
  {
    hide RecoverLine, RecoverLines, Find;
    var state, begin := initial, 0;
    assert file[0..] == file;
    while begin < |file|
      invariant 0 <= begin <= |file|
      invariant RecoverLines(sha, state, file[begin..]) == RecoverLines(sha, initial, file)
    {
      var end := Find(file[begin..], '\n');
      OneLine(sha, state, file, begin, end);
      if begin + end == |file| { return Err(WalCorrupt); }
      var next := RecoverLine(sha, state, file[begin..begin + end]);
      if next.Err? { return Err(next.error); }
      state := next.value;
      begin := begin + end + 1;
    }
    NoMoreLines(sha, state);
    assert file[begin..] == "";
    r := Ok(state);
  }

  lemma NoMoreLines(sha: Bytes -> Digest, s: State)
    ensures RecoverLines(sha, s, "") == Ok(s)
  {
  }

  class CurrentPointerStore {
    const sha: Bytes -> Digest
    var state: State
    var document: string

    ghost function View(): Store
      reads this
    {
      Store(state, document)
    }

    constructor (sha: Bytes -> Digest, initial: State, document: string)
      ensures this.sha == sha && View() == Store(initial, document)
    {
      this.sha, state, this.document := sha, initial, document;
    }

    /** The checks of the constructor, then the loop over complete lines after the torn tail was
        cut off the file. */
    method Recovered() returns (r: Result<(), PointerError>)
      modifies this
      ensures match Open(sha, old(state), old(document))
              case Ok(m) => r == Ok(()) && View() == m
              case Err(e) => r == Err(e)
    {
      hide RecoverLines, ValidState, Retained;
      if !ValidState(state) { return Err(InvalidConfig); }
      document := Retained(document);
      var recovered := ReadLines(sha, state, document);
      if recovered.Err? { return Err(recovered.error); }
      state := recovered.value;
      r := Ok(());
    }

    method AdvancePointer(c: PointerCommand, qc: ApplyQc, crash: Crash) returns (r: Result<Disposition, PointerError>)
      modifies this
      ensures Advancing(View(), r) == Advance(sha, old(View()), c, qc, crash)
    {
      var commandId := PointerCommandId(sha, c);
      if commandId.Err? { return Err(Certificate(commandId.error)); }
      var qcId := ApplyQcId(sha, qc);
      if qcId.Err? { return Err(Certificate(qcId.error)); }
      if !Authorized(c, qc, qcId.value) { return Err(RequestConflict); }
      if state.applyQcId == qcId.value {
        if !(state.checkpointId == c.nextCheckpoint && state.optimizerId == c.nextOptimizer && state.height == c.context.height) {
          return Err(RecoveryMismatch);
        }
        return Ok(Replayed);
      }
      if !(c.expectedParent == state.checkpointId && c.context.height > state.height) { return Err(RequestConflict); }
      if crash == BeforeDurability { return Err(SimulatedCrash); }
      if crash.During? {
        document := document + crash.torn;
        return Err(SimulatedCrash);
      }
      var next := RecordOf(c, qcId.value);
      document := document + Line(sha, next) + "\n";
      if crash == AfterDurability { return Err(SimulatedCrash); }
      state := After(next);
      if crash == AfterCommit { return Err(SimulatedCrash); }
      r := Ok(Advanced);
    }
  }

  /** Compare-and-set: with valid, matching certificates and no crash, the pointer moves exactly when
      the ApplyQC is new and its record extends the current state, and then by exactly one line. */
  lemma AdvancesIffExtends(sha: Bytes -> Digest, m: Store, c: PointerCommand, qc: ApplyQc)
    requires PointerCommandId(sha, c).Ok? && ApplyQcId(sha, qc).Ok?
    requires Authorized(c, qc, ApplyQcId(sha, qc).value)
    ensures var r := RecordOf(c, ApplyQcId(sha, qc).value);
            var a := Advance(sha, m, c, qc, NoCrash);
            && (a.reply == Ok(Advanced) <==> m.state.applyQcId != r.applyQcId && Extends(m.state, r))
            && (a.reply == Ok(Advanced) ==> a.store == Store(After(r), m.document + Line(sha, r) + "\n"))
            && (a.reply != Ok(Advanced) ==> a.store == m)
  {
    hide ContextValues, IsContentId, ApplyQcForm, Line;
    assert IsContentId(ApplyQcId(sha, qc).value);
  }

  // ----- one line is read back ---------------------------------------------

  lemma ContentIdIsClean(s: string)
    requires IsContentId(s)
    ensures Free(s, '|') && Free(s, '\n')
  {
    forall i | 0 <= i < 71 ensures s[i] != '|' && s[i] != '\n' {
      if i < 7 { assert s[..7][i] == PREFIX[i]; }
    }
  }

  lemma DecimalIsClean(n: nat)
    ensures Free(Protocol.Decimal(n), '|') && Free(Protocol.Decimal(n), '\n')
  {
  }

  lemma HexIsClean(b: Bytes)
    ensures Free(Hex(b), '|') && Free(Hex(b), '\n')
  {
  }

  predicate CleanRecord(r: Record) {
    IsContentId(r.parent) && IsContentId(r.next) && IsContentId(r.optimizer) && IsContentId(r.applyQcId)
  }

  lemma FreeConcat(a: string, b: string, c: char)
    requires Free(a, c) && Free(b, c)
    ensures Free(a + b, c)
  {
  }

  lemma LineHasNoBreak(sha: Bytes -> Digest, r: Record)
    requires CleanRecord(r)
    ensures Free(Line(sha, r), '\n')
  {
    hide IsContentId, Free;
    ContentIdIsClean(r.parent);
    ContentIdIsClean(r.next);
    ContentIdIsClean(r.optimizer);
    ContentIdIsClean(r.applyQcId);
    DecimalIsClean(r.height);
    HexIsClean(sha(Ascii(Payload(r))));
    var bar := "|";
    assert Free(bar, '\n') by { BarIsNoBreak(); }
    var p4 := r.optimizer + bar + r.applyQcId;
    FreeConcat(r.optimizer, bar, '\n');
    FreeConcat(r.optimizer + bar, r.applyQcId, '\n');
    var p3 := r.next + bar + p4;
    FreeConcat(r.next, bar, '\n');
    FreeConcat(r.next + bar, p4, '\n');
    var p2 := r.parent + bar + p3;
    FreeConcat(r.parent, bar, '\n');
    FreeConcat(r.parent + bar, p3, '\n');
    FreeConcat(Protocol.Decimal(r.height), bar, '\n');
    FreeConcat(Protocol.Decimal(r.height) + bar, p2, '\n');
    FreeConcat(Payload(r), bar, '\n');
    FreeConcat(Payload(r) + bar, Checksum(sha, Payload(r)), '\n');
  }

  lemma BarIsNoBreak()
    ensures Free("|", '\n')
  {
  }

  lemma Regroup(a: string, b: string, c: string)
    ensures (a + "|" + b) + "|" + c == a + "|" + (b + "|" + c)
  {
  }

  /** Six fields: the five of the record and the checksum. */
  lemma LineSplits(sha: Bytes -> Digest, r: Record)
    requires CleanRecord(r)
    ensures Split(Line(sha, r), '|') == [Protocol.Decimal(r.height), r.parent, r.next, r.optimizer, r.applyQcId, Checksum(sha, Payload(r))]
  {
    hide IsContentId, Free, Split;
    ContentIdIsClean(r.parent);
    ContentIdIsClean(r.next);
    ContentIdIsClean(r.optimizer);
    ContentIdIsClean(r.applyQcId);
    DecimalIsClean(r.height);
    HexIsClean(sha(Ascii(Payload(r))));
    var sum := Checksum(sha, Payload(r));
    var p4 := r.optimizer + "|" + r.applyQcId;
    var p3 := r.next + "|" + p4;
    var p2 := r.parent + "|" + p3;
    Regroup(Protocol.Decimal(r.height), p2, sum);
    Regroup(r.parent, p3, sum);
    Regroup(r.next, p4, sum);
    Regroup(r.optimizer, r.applyQcId, sum);
    SplitStep(Protocol.Decimal(r.height), '|', p2 + "|" + sum);
    SplitStep(r.parent, '|', p3 + "|" + sum);
    SplitStep(r.next, '|', p4 + "|" + sum);
    SplitStep(r.optimizer, '|', r.applyQcId + "|" + sum);
    SplitStep(r.applyQcId, '|', sum);
    SplitWhole(sum, '|');
  }

  lemma PayloadIsCutOff(sha: Bytes -> Digest, r: Record)
    ensures FindLast(Line(sha, r), '|') == |Payload(r)| + 1 && Line(sha, r)[..|Payload(r)|] == Payload(r)
  {
    hide Payload;
    HexIsClean(sha(Ascii(Payload(r))));
    LastAfter(Payload(r), '|', Checksum(sha, Payload(r)));
  }

  lemma LineIsReadBack(sha: Bytes -> Digest, s: State, r: Record)
    requires IsContentId(s.checkpointId) && Extends(s, r)
    ensures RecoverLine(sha, s, Line(sha, r)) == Ok(After(r))
  {
    hide IsContentId, Split, Line, Payload, Checksum;
    LineSplits(sha, r);
    PayloadIsCutOff(sha, r);
    Protocol.DecimalRoundTrip(Protocol.Decimal(r.height), r.height);
  }

  // ----- the whole log -----------------------------------------------------

  function Document(sha: Bytes -> Digest, h: seq<Record>): string {
    if h == [] then "" else Line(sha, h[0]) + "\n" + Document(sha, h[1..])
  }

  /** Each record extends the state the records before it lead to. */
  predicate Chain(s: State, h: seq<Record>)
    decreases |h|
  {
    h == [] || (Extends(s, h[0]) && Chain(After(h[0]), h[1..]))
  }

  function Final(s: State, h: seq<Record>): State
    decreases |h|
  {
    if h == [] then s else Final(After(h[0]), h[1..])
  }

  lemma {:induction false} ChainGrows(s: State, h: seq<Record>, r: Record)
    requires Chain(s, h) && Extends(Final(s, h), r)
    ensures Chain(s, h + [r]) && Final(s, h + [r]) == After(r)
    decreases |h|
  {
    hide Extends;
    if h == [] {
      assert [r][1..] == [];
    } else {
      assert (h + [r])[0] == h[0] && (h + [r])[1..] == h[1..] + [r];
      ChainGrows(After(h[0]), h[1..], r);
    }
  }

  lemma {:induction false} DocumentGrows(sha: Bytes -> Digest, h: seq<Record>, r: Record)
    ensures Document(sha, h + [r]) == Document(sha, h) + Line(sha, r) + "\n"
    decreases |h|
  {
    hide Line;
    if h == [] {
      assert [r][1..] == [];
    } else {
      assert (h + [r])[0] == h[0] && (h + [r])[1..] == h[1..] + [r];
      DocumentGrows(sha, h[1..], r);
    }
  }

  lemma {:induction false} DocumentEndsInBreak(sha: Bytes -> Digest, h: seq<Record>)
    ensures Document(sha, h) == "" || Document(sha, h)[|Document(sha, h)| - 1] == '\n'
  {
    hide Line;
    if h != [] { DocumentEndsInBreak(sha, h[1..]); }
  }

  lemma TailIsCutOff(sha: Bytes -> Digest, h: seq<Record>, tail: string)
    requires Free(tail, '\n')
    ensures Retained(Document(sha, h) + tail) == Document(sha, h)
  {
    hide Line, Document;
    DocumentEndsInBreak(sha, h);
    var d := Document(sha, h);
    if d == "" {
      assert d + tail == tail;
      NoBreak(tail);
    } else {
      var front := d[..|d| - 1];
      assert d == front + ['\n'];
      LastAfter(front, '\n', tail);
    }
  }

  lemma NoBreak(tail: string)
    requires Free(tail, '\n')
    ensures FindLast(tail, '\n') == 0
  {
  }

  lemma {:induction false} LinesAreReadBack(sha: Bytes -> Digest, s: State, h: seq<Record>)
    requires IsContentId(s.checkpointId) && Chain(s, h)
    ensures RecoverLines(sha, s, Document(sha, h)) == Ok(Final(s, h))
    decreases |h|
  {
    hide IsContentId, Line, RecoverLine;
    if h != [] {
      var line, rest := Line(sha, h[0]), Document(sha, h[1..]);
      LineHasNoBreak(sha, h[0]);
      FindAfter(line, '\n', rest);
      var d := line + "\n" + rest;
      assert d == line + ['\n'] + rest && d[..|line|] == line && d[|line| + 1..] == rest;
      LineIsReadBack(sha, s, h[0]);
      LinesAreReadBack(sha, After(h[0]), h[1..]);
    }
  }

  /** Whatever newline-free tail a crash left, recovery yields the state after the last complete
      line and cuts the file back to the complete lines. */
  lemma RecoveryIsExact(sha: Bytes -> Digest, initial: State, h: seq<Record>, tail: string)
    requires ValidState(initial) && Chain(initial, h) && Free(tail, '\n')
    ensures Open(sha, initial, Document(sha, h) + tail) == Ok(Store(Final(initial, h), Document(sha, h)))
  {
    hide IsContentId, Chain, Document, Final, RecoverLines, Free, Retained;
    TailIsCutOff(sha, h, tail);
    LinesAreReadBack(sha, initial, h);
  }

  /** A torn append of a line leaves no line break. */
  lemma ProperPrefixIsTorn(sha: Bytes -> Digest, r: Record, k: nat)
    requires CleanRecord(r) && k <= |Line(sha, r)|
    ensures Free((Line(sha, r) + "\n")[..k], '\n')
  {
    hide Line, CleanRecord;
    LineHasNoBreak(sha, r);
  }

  lemma {:induction false} LaterInChain(s: State, h: seq<Record>, i: nat)
    requires Chain(s, h) && i < |h|
    ensures if i == 0 then Extends(s, h[0]) else Extends(After(h[i - 1]), h[i])
    decreases |h|
  {
    hide Extends;
    if i == 1 {
      assert h[1..][0] == h[1];
    } else if i > 1 {
      LaterInChain(After(h[0]), h[1..], i - 1);
      assert h[1..][i - 1] == h[i] && h[1..][i - 2] == h[i - 1];
    }
  }

  /** Heights strictly increase and each line's parent is the checkpoint before it. */
  lemma {:induction false} HeightsClimb(s: State, h: seq<Record>, i: nat, j: nat)
    requires Chain(s, h) && i < j < |h|
    ensures s.height < h[i].height < h[j].height && h[j].parent == h[j - 1].next
    decreases j
  {
    hide IsContentId, Chain;
    LaterInChain(s, h, j);
    if i + 1 < j { HeightsClimb(s, h, i, j - 1); } else { FirstIsHigher(s, h, i); }
  }

  lemma {:induction false} FirstIsHigher(s: State, h: seq<Record>, i: nat)
    requires Chain(s, h) && i < |h|
    ensures s.height < h[i].height
    decreases |h|
  {
    hide IsContentId;
    if i > 0 { FirstIsHigher(After(h[0]), h[1..], i - 1); }
  }

  // ----- runs --------------------------------------------------------------

  datatype Action = Submit(command: PointerCommand, qc: ApplyQc, crash: Crash) | Reopen

  /** A crash ends the process; the store is then reopened with the same initial state. `None` means
      that recovery failed. */
  function Act(sha: Bytes -> Digest, initial: State, m: Store, action: Action): Option<Store> {
    match action
    case Reopen => Reopened(sha, initial, m.document)
    case Submit(c, qc, crash) =>
      var a := Advance(sha, m, c, qc, crash);
      if a.reply == Err(SimulatedCrash) then Reopened(sha, initial, a.store.document) else Some(a.store)
  }

  function Reopened(sha: Bytes -> Digest, initial: State, document: string): Option<Store> {
    match Open(sha, initial, document)
    case Ok(m) => Some(m)
    case Err(_) => None
  }

  function Run(sha: Bytes -> Digest, initial: State, m: Store, actions: seq<Action>): Option<Store>
    decreases |actions|
  {
    if actions == [] then Some(m)
    else
      match Act(sha, initial, m, actions[0])
      case None => None
      case Some(next) => Run(sha, initial, next, actions[1..])
  }

  predicate TearsCleanly(actions: seq<Action>) {
    forall i :: 0 <= i < |actions| && actions[i].Submit? && actions[i].crash.During? ==> Free(actions[i].crash.torn, '\n')
  }

  /** The store holds exactly a chain of complete lines. */
  ghost predicate Holds(sha: Bytes -> Digest, initial: State, m: Store, h: seq<Record>) {
    Chain(initial, h) && m.document == Document(sha, h) && m.state == Final(initial, h)
  }

  lemma ReopenKeeps(sha: Bytes -> Digest, initial: State, h: seq<Record>, tail: string)
    requires ValidState(initial) && Chain(initial, h) && Free(tail, '\n')
    ensures Reopened(sha, initial, Document(sha, h) + tail)
         == Some(Store(Final(initial, h), Document(sha, h)))
  {
    hide ValidState, Chain, Document, Final, Open, Free;
    RecoveryIsExact(sha, initial, h, tail);
  }

  /** A successful submission writes one record that extends the state. */
  lemma AdvanceExtends(sha: Bytes -> Digest, m: Store, c: PointerCommand, qc: ApplyQc, crash: Crash)
    requires var a := Advance(sha, m, c, qc, crash); a.store != m || a.reply == Ok(Advanced) || a.reply == Err(SimulatedCrash)
    ensures ApplyQcId(sha, qc).Ok? && Extends(m.state, RecordOf(c, ApplyQcId(sha, qc).value))
  {
    hide ContextValues, IsContentId, ApplyQcForm, Line;
    var qcId := ApplyQcId(sha, qc).value;
    assert IsContentId(qcId);
  }

  lemma {:induction false} ActKeeps(sha: Bytes -> Digest, initial: State, m: Store, h: seq<Record>, action: Action) returns (h': seq<Record>)
    requires ValidState(initial) && Holds(sha, initial, m, h) && TearsCleanly([action])
    ensures Act(sha, initial, m, action).Some? && Holds(sha, initial, Act(sha, initial, m, action).value, h')
    ensures h' == h || (|h'| == |h| + 1 && h'[..|h|] == h)
  {
    hide ValidState, Chain, Document, Final, Open, Extends, Line, Identify, Free, Reopened;
    h' := h;
    assert m.document + "" == m.document && Free("", '\n') by { EmptyIsFree(); }
    match action
    case Reopen => ReopenKeeps(sha, initial, h, "");
    case Submit(c, qc, crash) =>
      var a := Advance(sha, m, c, qc, crash);
      if a.store != m || a.reply == Err(SimulatedCrash) {
        AdvanceExtends(sha, m, c, qc, crash);
        var r := RecordOf(c, ApplyQcId(sha, qc).value);
        if crash == BeforeDurability {
          ReopenKeeps(sha, initial, h, "");
        } else if crash.During? {
          assert [action][0].crash.During?;
          ReopenKeeps(sha, initial, h, crash.torn);
        } else {
          h' := h + [r];
          ChainGrows(initial, h, r);
          DocumentGrows(sha, h, r);
          assert a.store.document + "" == a.store.document;
          ReopenKeeps(sha, initial, h', "");
        }
      }
  }

  lemma EmptyIsFree()
    ensures Free("", '\n')
  {
  }

  lemma {:induction false} RunKeeps(sha: Bytes -> Digest, initial: State, m: Store, h: seq<Record>, actions: seq<Action>) returns (h': seq<Record>)
    requires ValidState(initial) && Holds(sha, initial, m, h) && TearsCleanly(actions)
    ensures Run(sha, initial, m, actions).Some? && Holds(sha, initial, Run(sha, initial, m, actions).value, h')
    ensures |h| <= |h'| && h'[..|h|] == h
    decreases |actions|
  {
    hide ValidState, Holds, Act;
    if actions == [] {
      h' := h;
    } else {
      assert TearsCleanly([actions[0]]) && TearsCleanly(actions[1..]);
      var mid := ActKeeps(sha, initial, m, h, actions[0]);
      h' := RunKeeps(sha, initial, Act(sha, initial, m, actions[0]).value, mid, actions[1..]);
      assert h'[..|h|] == h'[..|mid|][..|h|];
    }
  }

  /** Every run from an empty log recovers from every crash, and its log is a chain of complete
      lines whose last one is the current state; reopening once more changes nothing. */
  lemma EveryRunRecovers(sha: Bytes -> Digest, initial: State, actions: seq<Action>)
    requires ValidState(initial) && TearsCleanly(actions)
    ensures var end := Run(sha, initial, Store(initial, ""), actions);
            && end.Some? && Reopened(sha, initial, end.value.document) == end
            && exists h :: Holds(sha, initial, end.value, h)
  {
    hide ValidState, Chain, Run, Free, Reopened, TearsCleanly, RecoverLine, Extends, Line;
    assert Holds(sha, initial, Store(initial, ""), []) by { EmptyChain(initial); }
    var h := RunKeeps(sha, initial, Store(initial, ""), [], actions);
    var end := Run(sha, initial, Store(initial, ""), actions).value;
    EmptyIsFree();
    assert end.document + "" == end.document;
    ReopenKeeps(sha, initial, h, "");
  }

  lemma EmptyChain(s: State)
    ensures Chain(s, [])
  {
  }

  /** Resubmitting the ApplyQC of the last line, with any authorized command, is a replay that
      appends nothing, also right after a crash and reopen. */
  lemma LastQcIsReplayed(sha: Bytes -> Digest, initial: State, m: Store, h: seq<Record>, c: PointerCommand, c': PointerCommand, qc: ApplyQc, crash: Crash)
    requires Holds(sha, initial, m, h) && h != [] && ApplyQcId(sha, qc).Ok? && PointerCommandId(sha, c').Ok?
    requires Authorized(c, qc, ApplyQcId(sha, qc).value) && Authorized(c', qc, ApplyQcId(sha, qc).value)
    requires h[|h| - 1] == RecordOf(c, ApplyQcId(sha, qc).value)
    ensures Advance(sha, m, c', qc, crash) == Advancing(m, Ok(Replayed))
  {
    hide Chain, Document, Final, Identify, Line;
    FinalIsLast(initial, h);
  }

  lemma {:induction false} FinalIsLast(s: State, h: seq<Record>)
    requires h != []
    ensures Final(s, h) == After(h[|h| - 1])
    decreases |h|
  {
    if |h| > 1 { FinalIsLast(After(h[0]), h[1..]); }
  }
}
