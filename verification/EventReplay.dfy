/**
 Replay of the semantic events kept in the runtime journal.

 `accepts` stands for the contract's own validation of an event and its
 namespace, which the writer and the reader share.
 */
module EventReplay {
  import opened Results
  import opened JournalFile

  /** A stream of events: one namespace of one incarnation of a source. */
  datatype StreamKey = StreamKey(namespace: string, source: Identity)

  function KeyOf(e: Event): StreamKey { StreamKey(e.namespace, e.source) }

  /** Event records carry an accepted event of their own node and epoch; other records carry none. */
  predicate WellFormed(r: Record, accepts: Event -> bool) {
    match r.event
    case None => r.kind != SemanticEventRecorded
    case Some(e) => r.kind == SemanticEventRecorded && accepts(e) && e.source == Identity(r.nodeId, r.nodeEpoch)
  }

  function Events(records: seq<Record>): seq<Event> {
    if records == [] then [] else
    var before, last := records[..|records| - 1], records[|records| - 1];
    if last.event.Some? then Events(before) + [last.event.value] else Events(before)
  }

  function Select(events: seq<Event>, key: StreamKey): seq<Event> {
    if events == [] then [] else
    var before, last := events[..|events| - 1], events[|events| - 1];
    if KeyOf(last) == key then Select(before, key) + [last] else Select(before, key)
  }

  /** Along the whole log, the sequence numbers of each stream strictly increase. */
  ghost predicate Ordered(events: seq<Event>) {
    forall i, j :: 0 <= i < j < |events| && KeyOf(events[i]) == KeyOf(events[j]) ==>
      events[i].sequence < events[j].sequence
  }

  ghost predicate AllWellFormed(records: seq<Record>, accepts: Event -> bool) {
    forall i :: 0 <= i < |records| ==> WellFormed(records[i], accepts)
  }

  ghost predicate Replayable(contents: seq<Token>, accepts: Event -> bool) {
    Readable(contents) && GoodLog(Records(contents), accepts)
  }

  // ------------------------------------------------------------------ list facts

  lemma {:induction false} EventsConcat(a: seq<Record>, b: seq<Record>)
    ensures Events(a + b) == Events(a) + Events(b)
  {
    if b == [] {
      assert a + b == a;
    } else {
      assert (a + b)[..|a + b| - 1] == a + b[..|b| - 1];
      EventsConcat(a, b[..|b| - 1]);
    }
  }

  lemma EventsSnoc(records: seq<Record>, r: Record)
    ensures Events(records + [r]) == if r.event.Some? then Events(records) + [r.event.value] else Events(records)
  {
    assert (records + [r])[..|records|] == records;
  }

  lemma SelectSnoc(events: seq<Event>, e: Event, key: StreamKey)
    ensures Select(events + [e], key) == if KeyOf(e) == key then Select(events, key) + [e] else Select(events, key)
  {
    assert (events + [e])[..|events|] == events;
  }

  /** A selected stream holds exactly the events of its key, in log order: `at` lists their places. */
  lemma {:induction false} SelectIsFilter(events: seq<Event>, key: StreamKey) returns (at: seq<nat>)
    ensures |at| == |Select(events, key)|
    ensures forall k :: 0 <= k < |at| ==> at[k] < |events| && Select(events, key)[k] == events[at[k]]
    ensures forall k, l :: 0 <= k < l < |at| ==> at[k] < at[l]
    ensures forall i :: 0 <= i < |events| ==> (i in at <==> KeyOf(events[i]) == key)
  {
    at := [];
    if events != [] {
      var n := |events| - 1;
      at := SelectIsFilter(events[..n], key);
      if KeyOf(events[n]) == key {
        at := at + [n];
      }
    }
  }

  // ---------------------------------------------------------------------- reading

  /** What the reader remembers: the largest, that is the latest, sequence number of each stream so far. */
  ghost predicate Remembers(previous: map<StreamKey, u64>, events: seq<Event>) {
    && (forall i :: 0 <= i < |events| ==>
          KeyOf(events[i]) in previous && events[i].sequence <= previous[KeyOf(events[i])])
    && (forall key :: key in previous ==>
          exists i :: 0 <= i < |events| && KeyOf(events[i]) == key && events[i].sequence == previous[key])
  }

  lemma RememberStep(previous: map<StreamKey, u64>, events: seq<Event>, e: Event)
    requires Remembers(previous, events) && Ordered(events)
    ensures Ordered(events + [e]) <==> !(KeyOf(e) in previous && e.sequence <= previous[KeyOf(e)])
    ensures Ordered(events + [e]) ==> Remembers(previous[KeyOf(e) := e.sequence], events + [e])
  {
    if KeyOf(e) in previous && e.sequence <= previous[KeyOf(e)] {
      var i :| 0 <= i < |events| && KeyOf(events[i]) == KeyOf(e) && events[i].sequence == previous[KeyOf(e)];
      assert (events + [e])[i] == events[i] && (events + [e])[|events|] == e;
    } else {
      RememberLatest(previous, events, e);
    }
  }

  lemma RememberLatest(previous: map<StreamKey, u64>, events: seq<Event>, e: Event)
    requires Remembers(previous, events) && (KeyOf(e) in previous ==> previous[KeyOf(e)] < e.sequence)
    ensures Remembers(previous[KeyOf(e) := e.sequence], events + [e])
  {
    var all, previous' := events + [e], previous[KeyOf(e) := e.sequence];
    assert all[|events|] == e;
    forall key | key in previous'
      ensures exists i :: 0 <= i < |all| && KeyOf(all[i]) == key && all[i].sequence == previous'[key]
    {
      if key != KeyOf(e) {
        var i :| 0 <= i < |events| && KeyOf(events[i]) == key && events[i].sequence == previous[key];
        assert all[i] == events[i];
      }
    }
  }

  /** What the reader accepts of the parsed records. */
  ghost predicate GoodLog(records: seq<Record>, accepts: Event -> bool) {
    AllWellFormed(records, accepts) && Ordered(Events(records))
  }

  /** A bad record, or a bad order, in any prefix of the log spoils the whole log. */
  lemma BadPrefix(lines: seq<Line>, accepts: Event -> bool, i: nat)
    requires i <= |lines| && !GoodLog(Parsed(lines[..i]), accepts)
    ensures !GoodLog(Parsed(lines), accepts)
  {
    var first, rest := Parsed(lines[..i]), Parsed(lines[i..]);
    assert lines == lines[..i] + lines[i..];
    ParsedConcat(lines[..i], lines[i..]);
    EventsConcat(first, rest);
    var a, b := Events(first), Events(rest);
    assert forall k :: 0 <= k < |first| ==> first[k] == (first + rest)[k];
    assert forall k :: 0 <= k < |a| ==> a[k] == (a + b)[k];
  }

  /** The state of the reader after the given records. */
  ghost predicate LogState(records: seq<Record>, accepts: Event -> bool, key: StreamKey, events: seq<Event>,
                           previous: map<StreamKey, u64>)
  {
    && GoodLog(records, accepts)
    && Remembers(previous, Events(records))
    && events == Select(Events(records), key)
  }

  lemma LogRecord(records: seq<Record>, accepts: Event -> bool, key: StreamKey, events: seq<Event>,
                  previous: map<StreamKey, u64>, r: Record)
    requires LogState(records, accepts, key, events, previous) && WellFormed(r, accepts) && r.event.None?
    ensures LogState(records + [r], accepts, key, events, previous)
  {
    EventsSnoc(records, r);
  }

  /** An event that does not exceed what the reader remembers of its stream breaks the order. */
  lemma LogStaleEvent(records: seq<Record>, previous: map<StreamKey, u64>, r: Record, e: Event)
    requires Ordered(Events(records)) && Remembers(previous, Events(records)) && r.event == Some(e)
    requires KeyOf(e) in previous && e.sequence <= previous[KeyOf(e)]
    ensures !Ordered(Events(records + [r]))
  {
    EventsSnoc(records, r);
    RememberStep(previous, Events(records), e);
  }

  lemma LogFreshEvent(records: seq<Record>, accepts: Event -> bool, key: StreamKey, events: seq<Event>,
                      previous: map<StreamKey, u64>, r: Record, e: Event)
    requires LogState(records, accepts, key, events, previous) && WellFormed(r, accepts) && r.event == Some(e)
    requires KeyOf(e) in previous ==> previous[KeyOf(e)] < e.sequence
    ensures LogState(records + [r], accepts, key, if KeyOf(e) == key then events + [e] else events,
                     previous[KeyOf(e) := e.sequence])
  {
    var before, after := Events(records), Events(records + [r]);
    EventsSnoc(records, r);
    assert after == before + [e];
    RememberStep(previous, before, e);
    SelectSnoc(before, e, key);
    WellFormedSnoc(records, accepts, r);
  }

  lemma WellFormedSnoc(records: seq<Record>, accepts: Event -> bool, r: Record)
    requires AllWellFormed(records, accepts)
    ensures AllWellFormed(records + [r], accepts) <==> WellFormed(r, accepts)
  {
    assert (records + [r])[|records|] == r;
  }

  lemma IllFormed(records: seq<Record>, accepts: Event -> bool, r: Record)
    requires !WellFormed(r, accepts)
    ensures !GoodLog(records + [r], accepts)
  {
    assert (records + [r])[|records|] == r;
  }

  /** One record: checked, ordered against its stream, and kept when it belongs to the requested one. */
  method TakeRecord(ghost before: seq<Record>, record: Record, accepts: Event -> bool, key: StreamKey,
                    events: seq<Event>, previous: map<StreamKey, u64>)
    returns (ok: bool, events': seq<Event>, previous': map<StreamKey, u64>)
    requires LogState(before, accepts, key, events, previous)
    ensures ok <==> GoodLog(before + [record], accepts)
    ensures ok ==> LogState(before + [record], accepts, key, events', previous')
  {
    events', previous' := events, previous;
    if !WellFormed(record, accepts) {
      IllFormed(before, accepts, record);
      return false, events', previous';
    }
    if record.event.None? {
      LogRecord(before, accepts, key, events, previous, record);
      return true, events', previous';
    }
    var event := record.event.value;
    if KeyOf(event) in previous && event.sequence <= previous[KeyOf(event)] {
      LogStaleEvent(before, previous, record, event);
      return false, events', previous';
    }
    LogFreshEvent(before, accepts, key, events, previous, record, event);
    previous' := previous[KeyOf(event) := event.sequence];
    if KeyOf(event) == key {
      events' := events + [event];
    }
    ok := true;
  }

  /** The reader's loop over the lines of the file. */
  method ReplayLines(lines: seq<Line>, terminalNewline: bool, accepts: Event -> bool, key: StreamKey)
    returns (r: Option<seq<Event>>)
    ensures r.Some? <==> PassesLines(lines, terminalNewline, |lines|) && GoodLog(Parsed(lines), accepts)
    ensures r.Some? ==> r.value == Select(Events(Parsed(lines)), key)
  {
    var events: seq<Event> := [];
    var previous: map<StreamKey, u64> := map[];
    for i := 0 to |lines|
      invariant PassesLines(lines, terminalNewline, i)
      invariant LogState(Parsed(lines[..i]), accepts, key, events, previous)
    {
      ghost var before := Parsed(lines[..i]);
      NextLine(lines, i);
      var parsed := ParseLine(lines[i]);
      if parsed.None? {
        if i + 1 == |lines| && !terminalNewline {
          continue;
        }
        StopIsFinal(lines, terminalNewline, i, |lines|);
        return None;
      }
      var ok;
      ok, events, previous := TakeRecord(before, parsed.value, accepts, key, events, previous);
      if !ok {
        BadPrefix(lines, accepts, i + 1);
        return None;
      }
    }
    assert lines[..|lines|] == lines;
    return Some(events);
  }

  method ReplayEvents(contents: seq<Token>, accepts: Event -> bool, key: StreamKey)
    returns (r: Result<seq<Event>, ReadError>)
    ensures r.Ok? <==> Replayable(contents, accepts)
    ensures r.Ok? ==> r.value == Select(Events(Records(contents)), key)
    ensures r == Err(ReadFailed) <==> !IsText(contents)
  {
    ReadableLineByLine(contents);
    if Torn(false) in contents {
      return Err(ReadFailed);
    }
    var events := ReplayLines(Lines(contents), EndsWithNewline(contents), accepts, key);
    return if events.Some? then Ok(events.value) else Err(Corrupt);
  }

  // -------------------------------------------------------------------- appending

  function EventRecord(e: Event, stamp: u64): Record {
    Record(stamp, SemanticEventRecorded, e.source.id, e.source.generation, None, None, None, "EVENT_PUBLISHED", None,
           Some(e))
  }

  /** The event continues its stream: its sequence number exceeds every earlier one. */
  ghost predicate Continues(events: seq<Event>, e: Event) {
    forall i :: 0 <= i < |events| && KeyOf(events[i]) == KeyOf(e) ==> events[i].sequence < e.sequence
  }

  /**
   Publishing an accepted event to an untorn, replayable journal keeps every
   stream replayable exactly when the event continues its own stream, and then
   extends that stream, and no other, by exactly that event.
   */
  lemma PublishExtendsReplay(contents: seq<Token>, accepts: Event -> bool, e: Event, stamp: u64, key: StreamKey)
    requires Replayable(contents, accepts) && Tail(contents) == [] && accepts(e)
    ensures var after := contents + Written(EventRecord(e, stamp), Complete);
            && (Replayable(after, accepts) <==> Continues(Events(Records(contents)), e))
            && Select(Events(Records(after)), key) ==
               Select(Events(Records(contents)), key) + if KeyOf(e) == key then [e] else []
  {
    var r, events := EventRecord(e, stamp), Events(Records(contents));
    PublishedLog(contents, accepts, r);
    SelectSnoc(events, e, key);
    OrderedSnoc(events, e);
  }

  lemma PublishedLog(contents: seq<Token>, accepts: Event -> bool, r: Record)
    requires Readable(contents) && Tail(contents) == [] && AllWellFormed(Records(contents), accepts) &&
               WellFormed(r, accepts)
    ensures var after := contents + Written(r, Complete);
            && Readable(after) && AllWellFormed(Records(after), accepts)
            && Events(Records(after)) == Events(Records(contents)) + (if r.event.Some? then [r.event.value] else [])
  {
    var records := Records(contents);
    AppendKeepsReadable(contents, r, Complete);
    AppendAddsRecord(contents, r, Complete);
    EventsSnoc(records, r);
    assert AllWellFormed(records + [r], accepts);
  }

  lemma OrderedSnoc(events: seq<Event>, e: Event)
    requires Ordered(events)
    ensures Ordered(events + [e]) <==> Continues(events, e)
  {
    var all := events + [e];
    assert all[|events|] == e && forall i :: 0 <= i < |events| ==> all[i] == events[i];
  }

  // --------------------------------------------------------------- failed for good

  /** The file is refused, or its finished lines hold a bad record or a bad order. */
  ghost predicate Spoiled(contents: seq<Token>, accepts: Event -> bool) {
    !Readable(contents) || !GoodLog(Parsed(Done(contents)), accepts)
  }

  lemma SpoiledIsNotReplayable(contents: seq<Token>, accepts: Event -> bool)
    requires Spoiled(contents, accepts)
    ensures !Replayable(contents, accepts)
  {
    if Readable(contents) {
      var lines, n := Lines(contents), |Done(contents)|;
      assert lines[..n] == Done(contents);
      BadPrefix(lines, accepts, n);
    }
  }

  lemma SpoiledStays(contents: seq<Token>, accepts: Event -> bool, record: Record, outcome: WriteOutcome)
    requires Spoiled(contents, accepts)
    ensures Spoiled(contents + Written(record, outcome), accepts)
  {
    AppendKeepsReadable(contents, record, outcome);
    AppendShape(contents, record, outcome);
    if Readable(contents) {
      var done := Done(contents + Written(record, outcome));
      assert done[..|Done(contents)|] == Done(contents);
      BadPrefix(done, accepts, |Done(contents)|);
    }
  }

  lemma UntornFailureSpoils(contents: seq<Token>, accepts: Event -> bool)
    requires Tail(contents) == []
    ensures Spoiled(contents, accepts) <==> !Replayable(contents, accepts)
  {
    assert Lines(contents) == Done(contents);
  }

  /** An event that does not continue its stream spoils the journal it is published to. */
  lemma StaleEventSpoils(contents: seq<Token>, accepts: Event -> bool, e: Event, stamp: u64)
    requires Replayable(contents, accepts) && Tail(contents) == [] && accepts(e)
    requires !Continues(Events(Records(contents)), e)
    ensures Spoiled(contents + Written(EventRecord(e, stamp), Complete), accepts)
  {
    var after := contents + Written(EventRecord(e, stamp), Complete);
    PublishExtendsReplay(contents, accepts, e, stamp, KeyOf(e));
    AppendShape(contents, EventRecord(e, stamp), Complete);
    UntornFailureSpoils(after, accepts);
  }

  lemma TornWriteHidesRecord(contents: seq<Token>, record: Record)
    ensures Records(contents + Written(record, TornWrite(true))) == Parsed(Done(contents))
  {
    AppendShape(contents, record, TornWrite(true));
    var tail := Tail(contents) + [Torn(true)];
    assert tail[|tail| - 1] == Torn(true);
    assert Lines(contents + Written(record, TornWrite(true))) == Done(contents) + [tail];
    assert (Done(contents) + [tail])[..|Done(contents)|] == Done(contents);
  }

  /** Otherwise only the unfinished line is at fault, and a torn write on top of it hides it. */
  lemma TornWriteRepairs(contents: seq<Token>, accepts: Event -> bool, record: Record)
    requires !Spoiled(contents, accepts)
    ensures Replayable(contents + Written(record, TornWrite(true)), accepts)
  {
    AppendKeepsReadable(contents, record, TornWrite(true));
    TornWriteHidesRecord(contents, record);
  }

  /** A lifecycle record changes no replay. */
  lemma LifecycleKeepsReplay(contents: seq<Token>, accepts: Event -> bool, r: Record)
    requires Replayable(contents, accepts) && Tail(contents) == [] && r.event.None? && r.kind != SemanticEventRecorded
    ensures var after := contents + Written(r, Complete);
            Replayable(after, accepts) && Events(Records(after)) == Events(Records(contents))
  {
    PublishedLog(contents, accepts, r);
  }
}
