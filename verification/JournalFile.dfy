/**
 The on-disk runtime journal: an append-only text file of JSON lines, in which
 an append may be cut off at any byte.

 A file is a sequence of tokens.  A token is a complete JSON record, the torn
 beginning of one, or a newline.  A line parses exactly when it is one complete
 record and nothing else.
 */
module JournalFile {
  import opened Results

  const U64_MAX: int := 0xffff_ffff_ffff_ffff

  type u64 = x: int | 0 <= x <= U64_MAX

  datatype Kind =
    | KernelStarted
    | LeaseAcquired
    | LeaseReleaseStarted
    | LeaseReleased
    | LeaseRevoked
    | FenceAdvanced
    | InstanceLaunching
    | InstanceLaunched
    | InstanceTerminated
    | InstanceCleanupFailed
    | WatchdogReaped
    | WorkerLost
    | OperationLost
    | EndpointRevoked
    | SemanticEventRecorded

  /** The sandbox identity of a launched process. */
  datatype Evidence = Evidence(cgroupName: string, pid: nat, startTimeTicks: u64)

  datatype Identity = Identity(id: string, generation: u64)

  datatype Event = Event(
    namespace: string,
    sequence: u64,
    source: Identity,
    subject: Identity,
    kind: string,
    observedAtUnixMs: u64,
    schemaId: string,
    body: string)

  datatype Record = Record(
    observedAtMillis: u64,
    kind: Kind,
    nodeId: string,
    nodeEpoch: u64,
    instanceName: Option<string>,
    leaseName: Option<string>,
    fenceToken: Option<u64>,
    reasonCode: string,
    evidence: Option<Evidence>,
    event: Option<Event>)

  /** A torn token may end inside a multi-byte character. */
  datatype Token = Whole(record: Record) | Torn(utf8: bool) | Newline

  type Line = seq<Token>

  // -------------------------------------------------------------------- reading

  /** The lines that end in a newline. */
  function Done(contents: seq<Token>): seq<Line> {
    if contents == [] then [] else
    var before, last := contents[..|contents| - 1], contents[|contents| - 1];
    if last == Newline then Done(before) + [Tail(before)] else Done(before)
  }

  /** Whatever follows the last newline. */
  function Tail(contents: seq<Token>): Line {
    if contents == [] then [] else
    var before, last := contents[..|contents| - 1], contents[|contents| - 1];
    if last == Newline then [] else Tail(before) + [last]
  }

  /** The lines a reader iterates over: a final line without newline counts unless it is empty. */
  function Lines(contents: seq<Token>): seq<Line> {
    Done(contents) + if Tail(contents) == [] then [] else [Tail(contents)]
  }

  predicate EndsWithNewline(contents: seq<Token>) {
    contents != [] && contents[|contents| - 1] == Newline
  }

  predicate IsText(contents: seq<Token>) {
    Torn(false) !in contents
  }

  function ParseLine(line: Line): Option<Record> {
    if |line| == 1 && line[0].Whole? then Some(line[0].record) else None
  }

  /** The records of the lines that parse. */
  function Parsed(lines: seq<Line>): seq<Record> {
    if lines == [] then [] else
    var before, last := lines[..|lines| - 1], lines[|lines| - 1];
    Parsed(before) + match ParseLine(last) case Some(r) => [r] case None => []
  }

  /** What a reader accepts: every terminated line is a record; the unterminated tail may be anything textual. */
  ghost predicate Readable(contents: seq<Token>) {
    IsText(contents) && forall i :: 0 <= i < |Done(contents)| ==> ParseLine(Done(contents)[i]).Some?
  }

  function Records(contents: seq<Token>): seq<Record> {
    Parsed(Lines(contents))
  }

  // ------------------------------------------------------------------ appending

  /** How far one append got.  Only `Complete` is reported as success. */
  datatype WriteOutcome =
    | OpenFailed
    | NothingWritten
    | TornWrite(utf8: bool)
    | NewlineMissing
    | SyncFailed
    | Complete

  function Written(record: Record, outcome: WriteOutcome): seq<Token> {
    match outcome
    case OpenFailed => []
    case NothingWritten => []
    case TornWrite(utf8) => [Torn(utf8)]
    case NewlineMissing => [Whole(record)]
    case SyncFailed => [Whole(record), Newline]
    case Complete => [Whole(record), Newline]
  }

  predicate WritesLine(outcome: WriteOutcome) {
    outcome.SyncFailed? || outcome.Complete?
  }

  lemma AppendToken(contents: seq<Token>, t: Token)
    ensures Done(contents + [t]) == if t == Newline then Done(contents) + [Tail(contents)] else Done(contents)
    ensures Tail(contents + [t]) == if t == Newline then [] else Tail(contents) + [t]
  {
    assert (contents + [t])[..|contents|] == contents;
  }

  /** The effect of an append on the two parts of the file. */
  lemma AppendShape(contents: seq<Token>, record: Record, outcome: WriteOutcome)
    ensures var after := contents + Written(record, outcome);
            && Done(after) == (if WritesLine(outcome) then Done(contents) + [Tail(contents) + [Whole(record)]]
                                 else Done(contents))
            && Tail(after) == (if WritesLine(outcome) then [] else Tail(contents) + Written(record, outcome))
  {
    match outcome
    case TornWrite(utf8) => AppendToken(contents, Torn(utf8));
    case NewlineMissing => AppendToken(contents, Whole(record));
    case SyncFailed =>
      AppendToken(contents, Whole(record));
      AppendToken(contents + [Whole(record)], Newline);
      assert contents + Written(record, outcome) == contents + [Whole(record)] + [Newline];
    case Complete =>
      AppendToken(contents, Whole(record));
      AppendToken(contents + [Whole(record)], Newline);
      assert contents + Written(record, outcome) == contents + [Whole(record)] + [Newline];
    case _ => assert contents + Written(record, outcome) == contents;
  }

  /**
   When a journal survives an append: exactly when it was readable before, the
   append did not stop inside a character, and no line was finished on top of a
   torn tail.  No later append can repair an unreadable journal.
   */
  lemma AppendKeepsReadable(contents: seq<Token>, record: Record, outcome: WriteOutcome)
    ensures Readable(contents + Written(record, outcome)) <==>
            && Readable(contents)
            && outcome != TornWrite(false)
            && (WritesLine(outcome) ==> Tail(contents) == [])
  {
    var after := contents + Written(record, outcome);
    AppendShape(contents, record, outcome);
    assert IsText(after) <==> IsText(contents) && outcome != TornWrite(false);
    if WritesLine(outcome) {
      assert Done(after)[|Done(contents)|] == Tail(contents) + [Whole(record)];
      assert forall i :: 0 <= i < |Done(contents)| ==> Done(after)[i] == Done(contents)[i];
    }
  }

  lemma {:induction false} ParsedConcat(a: seq<Line>, b: seq<Line>)
    ensures Parsed(a + b) == Parsed(a) + Parsed(b)
  {
    if b == [] {
      assert a + b == a;
    } else {
      assert (a + b)[..|a + b| - 1] == a + b[..|b| - 1];
      ParsedConcat(a, b[..|b| - 1]);
    }
  }

  /** A complete append to an untorn journal adds exactly its record. */
  lemma AppendAddsRecord(contents: seq<Token>, record: Record, outcome: WriteOutcome)
    requires WritesLine(outcome) && Tail(contents) == []
    ensures Tail(contents + Written(record, outcome)) == []
    ensures Records(contents + Written(record, outcome)) == Records(contents) + [record]
  {
    AppendShape(contents, record, outcome);
    assert Tail(contents) + [Whole(record)] == [Whole(record)];
    assert Lines(contents) == Done(contents);
    assert Lines(contents + Written(record, outcome)) == Done(contents) + [[Whole(record)]];
    ParsedConcat(Done(contents), [[Whole(record)]]);
    assert Parsed([[Whole(record)]]) == [record];
  }

  /** Records of terminated lines stay in the file for good. */
  lemma DoneRecordsStay(contents: seq<Token>, record: Record, outcome: WriteOutcome, r: Record)
    requires r in Parsed(Done(contents))
    ensures r in Parsed(Done(contents + Written(record, outcome)))
  {
    AppendShape(contents, record, outcome);
    if WritesLine(outcome) {
      ParsedConcat(Done(contents), [Tail(contents) + [Whole(record)]]);
    }
  }

  /** A reader sees every record of a terminated line. */
  lemma DoneRecordsAreRead(contents: seq<Token>, r: Record)
    requires r in Parsed(Done(contents))
    ensures r in Records(contents)
  {
    ParsedConcat(Done(contents), if Tail(contents) == [] then [] else [Tail(contents)]);
  }

  /** The shape of the tail and of the final newline, as a reader tests it. */
  lemma TailAndNewline(contents: seq<Token>)
    ensures EndsWithNewline(contents) ==> Tail(contents) == []
    ensures !EndsWithNewline(contents) && contents != [] ==> Tail(contents) != []
    ensures contents == [] ==> Lines(contents) == []
  {
  }

  // -------------------------------------------------------- reading line by line

  datatype ReadError = ReadFailed | Corrupt

  /** A reader refuses a line that does not parse, except a last line without newline. */
  predicate Stops(lines: seq<Line>, terminalNewline: bool, i: nat)
    requires i < |lines|
  {
    ParseLine(lines[i]).None? && !(i + 1 == |lines| && !terminalNewline)
  }

  /** None of the first n lines is refused. */
  predicate PassesLines(lines: seq<Line>, terminalNewline: bool, n: nat)
    requires n <= |lines|
  {
    n == 0 || (PassesLines(lines, terminalNewline, n - 1) && !Stops(lines, terminalNewline, n - 1))
  }

  lemma {:induction false} PassesLinesMeaning(lines: seq<Line>, terminalNewline: bool, n: nat)
    requires n <= |lines|
    ensures PassesLines(lines, terminalNewline, n) <==> forall i :: 0 <= i < n ==> !Stops(lines, terminalNewline, i)
  {
    if n > 0 {
      PassesLinesMeaning(lines, terminalNewline, n - 1);
    }
  }

  /** The reader's line-by-line test accepts exactly the readable files. */
  lemma ReadableLineByLine(contents: seq<Token>)
    ensures Readable(contents) <==>
            IsText(contents) && PassesLines(Lines(contents), EndsWithNewline(contents), |Lines(contents)|)
  {
    var lines, done, newline := Lines(contents), Done(contents), EndsWithNewline(contents);
    TailAndNewline(contents);
    PassesLinesMeaning(lines, newline, |lines|);
    forall i | 0 <= i < |done| ensures Stops(lines, newline, i) <==> ParseLine(done[i]).None? {
      assert lines[i] == done[i];
    }
    forall i | |done| <= i < |lines| ensures !Stops(lines, newline, i) {
    }
    assert |done| <= |lines|;
  }

  lemma {:induction false} StopIsFinal(lines: seq<Line>, terminalNewline: bool, i: nat, n: nat)
    requires i < n <= |lines| && Stops(lines, terminalNewline, i)
    ensures !PassesLines(lines, terminalNewline, n)
  {
    PassesLinesMeaning(lines, terminalNewline, n);
  }

  /** The records read after one more line. */
  lemma NextLine(lines: seq<Line>, i: nat)
    requires i < |lines|
    ensures Parsed(lines[..i + 1]) ==
              if ParseLine(lines[i]).Some? then Parsed(lines[..i]) + [ParseLine(lines[i]).value] else Parsed(lines[..i])
  {
    assert lines[..i + 1][..i] == lines[..i];
  }
}
