/** The append-only audit hash chain and its verifier. */
module AuditChain {
  import opened Wrappers

  /** The event types of the audit schema; any other name fails it. */
  datatype EventType =
    | EvaluationRequested | PolicyAdmitted | AgentStarted | AgentCompleted | CleanupCompleted
    | EvaluationStarted | EvaluationFailed | TestsCompleted | ScannersCompleted | JudgeCompleted | JudgeSkipped
    | OutcomeDecided | RunCompleted | Unsupported(name: string)

  /** Everything of an event that its hash covers. */
  datatype Payload = Payload(
    sequence: nat, timestamp: string, traceId: string, spanId: string, parentSpanId: Option<string>,
    runId: string, eventType: EventType, attributes: string, previousHash: Digest)

  datatype Event = Event(payload: Payload, eventHash: Digest)

  /** SHA-256 of the canonical payload, the serialized size of an event, and the strict schema. */
  datatype Codec = Codec(digest: Payload -> Digest, size: Event -> nat, valid: Payload -> bool)

  const MAX_EVENT_BYTES: nat := 64 * 1024
  const GENESIS_HASH: Digest := "0000000000000000000000000000000000000000000000000000000000000000"

  /** One line of the file: an event in canonical form, or something that is rejected before it is one. */
  datatype Line = Unreadable(code: string) | Parsed(event: Event)

  function PreviousHash(lines: seq<Line>, i: nat): Digest
    requires i <= |lines| && forall j | 0 <= j < i :: lines[j].Parsed?
  {
    if i == 0 then GENESIS_HASH else lines[i - 1].event.eventHash
  }

  /** Line `i` is a well-formed event that continues the chain before it. */
  predicate Continues(codec: Codec, lines: seq<Line>, i: nat, runId: string, traceId: string)
    requires i < |lines| && forall j | 0 <= j < i :: lines[j].Parsed?
  {
    && lines[i].Parsed?
    && codec.size(lines[i].event) <= MAX_EVENT_BYTES
    && var Event(p, hash) := lines[i].event;
    && codec.valid(p)
    && p.sequence == i && p.traceId == traceId && p.runId == runId
    && p.previousHash == PreviousHash(lines, i)
    && hash == codec.digest(p)
  }

  /** The first `n` lines form a chain. */
  ghost predicate Chained(codec: Codec, lines: seq<Line>, n: nat, runId: string, traceId: string)
    requires n <= |lines|
  {
    && (forall i | 0 <= i < n :: lines[i].Parsed?)
    && (forall i | 0 <= i < n :: Continues(codec, lines, i, runId, traceId))
  }

  /** A whole file that is a chain of at least one event. */
  ghost predicate IsChain(codec: Codec, lines: seq<Line>) {
    && lines != [] && lines[0].Parsed?
    && Chained(codec, lines, |lines|, lines[0].event.payload.runId, lines[0].event.payload.traceId)
  }

  datatype Failure = Failure(code: string, line: Option<nat>)

  datatype Verification = Verification(
    failures: seq<Failure>, eventCount: nat, finalHash: Option<Digest>, runId: Option<string>, traceId: Option<string>)
  {
    predicate Ok() { failures == [] }
  }

  /** What the verifier should accept. */
  ghost predicate Accepts(codec: Codec, lines: seq<Line>, expectedFinalHash: Option<Digest>,
                          expectedRunId: Option<string>)
  {
    && IsChain(codec, lines)
    && (expectedFinalHash.Some? ==> lines[|lines| - 1].event.eventHash == expectedFinalHash.value)
    && (expectedRunId.Some? ==> lines[0].event.payload.runId == expectedRunId.value)
  }

  /** The first `n` lines are a chain by the expected run. */
  ghost predicate VerifiedTo(codec: Codec, lines: seq<Line>, n: nat, expectedRunId: Option<string>)
    requires n <= |lines|
  {
    n == 0 || (
      && lines[0].Parsed?
      && Chained(codec, lines, n, lines[0].event.payload.runId, lines[0].event.payload.traceId)
      && (expectedRunId.Some? ==> lines[0].event.payload.runId == expectedRunId.value))
  }

  /** The first line is an event in the first place: its run and its trace are those of the chain. */
  ghost predicate Opens(codec: Codec, lines: seq<Line>) {
    && lines != [] && lines[0].Parsed? && codec.size(lines[0].event) <= MAX_EVENT_BYTES
    && codec.valid(lines[0].event.payload) && lines[0].event.payload.sequence == 0
  }

  /** The run and the trace of the chain in a file. */
  ghost predicate Names(codec: Codec, lines: seq<Line>, runId: Option<string>, traceId: Option<string>) {
    if Opens(codec, lines) then
      runId == Some(lines[0].event.payload.runId) && traceId == Some(lines[0].event.payload.traceId)
    else runId == None && traceId == None
  }

  /**
   * After `n` verified lines, `code` is what is wrong with the next one: each code stands for one fault of the line,
   * and is its report when everything that comes before that fault is in order.
   */
  ghost predicate Rejects(codec: Codec, lines: seq<Line>, n: nat, expectedRunId: Option<string>, code: string)
    requires n < |lines| && forall j | 0 <= j < n :: lines[j].Parsed?
  {
    match lines[n]
    case Unreadable(found) => code == found
    case Parsed(event) =>
      var Event(p, hash) := event;
      var truthful := hash == codec.digest(p);
      var small := codec.size(event) <= MAX_EVENT_BYTES;
      var inPlace := small && codec.valid(p) && p.sequence == n;
      var inTrace := inPlace && (n > 0 ==> p.traceId == lines[0].event.payload.traceId);
      var expected := if n > 0 then Some(lines[0].event.payload.runId) else expectedRunId;
      var inRun := inTrace && (expected == None || expected == Some(p.runId));
      || (code == "event_too_large" && codec.size(event) > MAX_EVENT_BYTES)
      || (code == "schema_invalid" && small && !codec.valid(p) && truthful)
      || (code == "sequence_mismatch" && small && codec.valid(p) && p.sequence != n)
      || (code == "trace_id_mismatch" && inPlace && !inTrace)
      || (code == "run_id_mismatch" && inTrace && !inRun)
      || (code == "previous_hash_mismatch" && inRun && p.previousHash != PreviousHash(lines, n))
      || (code == "event_hash_mismatch" && !truthful
            && (if codec.valid(p) then inRun && p.previousHash == PreviousHash(lines, n) else small))
  }

  /** The verifier's variables after `n` good lines. */
  ghost predicate Tracks(codec: Codec, lines: seq<Line>, n: nat, finalHash: Option<Digest>, runId: Option<string>,
                         traceId: Option<string>, expectedRunId: Option<string>)
    requires n <= |lines|
  {
    && VerifiedTo(codec, lines, n, expectedRunId)
    && (n == 0 ==> finalHash == None && runId == None && traceId == None)
    && (n > 0 ==> Opens(codec, lines) && Names(codec, lines, runId, traceId)
                  && finalHash == Some(lines[n - 1].event.eventHash))
  }

  /** What a line that was read tells: its fault, and the run and the trace that are known after it. */
  datatype LineCheck = LineCheck(failure: Option<string>, runId: Option<string>, traceId: Option<string>)

  /** The checks on one line, in the verifier's order; no failure means that the line continues the chain. */
  function CheckLine(codec: Codec, line: Line, count: nat, finalHash: Option<Digest>, runId: Option<string>,
                     traceId: Option<string>, expectedRunId: Option<string>): LineCheck
  {
    if line.Unreadable? then LineCheck(Some(line.code), runId, traceId)
    else
      var Event(p, hash) := line.event;
      if codec.size(line.event) > MAX_EVENT_BYTES then LineCheck(Some("event_too_large"), runId, traceId)
      else if !codec.valid(p) then
        var code := if hash != codec.digest(p) then "event_hash_mismatch" else "schema_invalid";
        LineCheck(Some(code), runId, traceId)
      else if p.sequence != count then LineCheck(Some("sequence_mismatch"), runId, traceId)
      else if traceId.Some? && p.traceId != traceId.value then LineCheck(Some("trace_id_mismatch"), runId, traceId)
      else
        var trace := if traceId.None? then Some(p.traceId) else traceId;
        var run := if runId.None? then Some(p.runId) else runId;
        if runId.None? && expectedRunId.Some? && p.runId != expectedRunId.value then
          LineCheck(Some("run_id_mismatch"), run, trace)
        else if runId.Some? && p.runId != runId.value then LineCheck(Some("run_id_mismatch"), run, trace)
        else if p.previousHash != (if finalHash.Some? then finalHash.value else GENESIS_HASH) then
          LineCheck(Some("previous_hash_mismatch"), run, trace)
        else if hash != codec.digest(p) then LineCheck(Some("event_hash_mismatch"), run, trace)
        else LineCheck(None, run, trace)
  }

  lemma GoodLineContinues(codec: Codec, lines: seq<Line>, n: nat, finalHash: Option<Digest>, runId: Option<string>,
                          traceId: Option<string>, expectedRunId: Option<string>)
    requires n < |lines| && Tracks(codec, lines, n, finalHash, runId, traceId, expectedRunId)
    requires CheckLine(codec, lines[n], n, finalHash, runId, traceId, expectedRunId).failure.None?
    ensures lines[n].Parsed?
    ensures var check := CheckLine(codec, lines[n], n, finalHash, runId, traceId, expectedRunId);
      Tracks(codec, lines, n + 1, Some(lines[n].event.eventHash), check.runId, check.traceId, expectedRunId)
  {
    assert Continues(codec, lines, n, lines[0].event.payload.runId, lines[0].event.payload.traceId);
  }

  /** A line is reported for exactly its own fault, and no file with such a line is accepted. */
  lemma BadLineIsReported(codec: Codec, lines: seq<Line>, n: nat, finalHash: Option<Digest>, runId: Option<string>,
                          traceId: Option<string>, expectedFinalHash: Option<Digest>, expectedRunId: Option<string>)
    requires n < |lines| && Tracks(codec, lines, n, finalHash, runId, traceId, expectedRunId)
    ensures var check := CheckLine(codec, lines[n], n, finalHash, runId, traceId, expectedRunId);
      && (forall code :: check.failure == Some(code) <==> Rejects(codec, lines, n, expectedRunId, code))
      && (check.failure.Some? ==>
            && Names(codec, lines, check.runId, check.traceId)
            && !Accepts(codec, lines, expectedFinalHash, expectedRunId))
  {
    assert IsChain(codec, lines) ==>
      Continues(codec, lines, n, lines[0].event.payload.runId, lines[0].event.payload.traceId);
  }

  /** What a file that is a chain by the expected run is reported for. */
  ghost predicate EndReported(lines: seq<Line>, expectedFinalHash: Option<Digest>, failures: seq<Failure>)
    requires forall line <- lines :: line.Parsed?
  {
    if lines == [] then failures == [Failure("empty_chain", None)]
    else if expectedFinalHash == None || expectedFinalHash == Some(lines[|lines| - 1].event.eventHash) then
      failures == []
    else failures == [Failure("final_hash_mismatch", None)]
  }

  /**
   * Main result: a file passes exactly when it should. Otherwise the first line that breaks the chain is reported, by
   * its number and for its own fault, with what was verified before it; or else the end of the file is.
   */
  method VerifyAuditChain(codec: Codec, lines: seq<Line>, expectedFinalHash: Option<Digest>,
                          expectedRunId: Option<string>)
    returns (r: Verification)
    ensures r.Ok() <==> Accepts(codec, lines, expectedFinalHash, expectedRunId)
    ensures r.eventCount <= |lines| && VerifiedTo(codec, lines, r.eventCount, expectedRunId)
    ensures Names(codec, lines, r.runId, r.traceId)
    ensures r.finalHash ==
      if r.eventCount == 0 then None else Some(lines[r.eventCount - 1].event.eventHash)
    ensures r.eventCount < |lines| ==>
      exists code :: Rejects(codec, lines, r.eventCount, expectedRunId, code)
        && r.failures == [Failure(code, Some(r.eventCount + 1))]
    ensures r.eventCount == |lines| ==> EndReported(lines, expectedFinalHash, r.failures)
  {
    hide Continues, Rejects;
    var eventCount := 0;
    var finalHash: Option<Digest> := None;
    var runId: Option<string> := None;
    var traceId: Option<string> := None;
    while eventCount < |lines|
      invariant eventCount <= |lines|
      invariant Tracks(codec, lines, eventCount, finalHash, runId, traceId, expectedRunId)
    {
      var check := CheckLine(codec, lines[eventCount], eventCount, finalHash, runId, traceId, expectedRunId);
      if check.failure.Some? {
        BadLineIsReported(codec, lines, eventCount, finalHash, runId, traceId, expectedFinalHash, expectedRunId);
        var failure := Failure(check.failure.value, Some(eventCount + 1));
        return Verification([failure], eventCount, finalHash, check.runId, check.traceId);
      }
      GoodLineContinues(codec, lines, eventCount, finalHash, runId, traceId, expectedRunId);
      runId, traceId := check.runId, check.traceId;
      finalHash := Some(lines[eventCount].event.eventHash);
      eventCount := eventCount + 1;
    }
    if eventCount == 0 {
      return Verification([Failure("empty_chain", None)], eventCount, finalHash, runId, traceId);
    }
    if expectedFinalHash.Some? && finalHash != expectedFinalHash {
      return Verification([Failure("final_hash_mismatch", None)], eventCount, finalHash, runId, traceId);
    }
    return Verification([], eventCount, finalHash, runId, traceId);
  }

  // ----- What the final hash determines -----

  lemma {:induction false} SameHashSameHistory(codec: Codec, a: seq<Line>, b: seq<Line>, i: nat)
    requires Injective(codec.digest) && IsChain(codec, a) && IsChain(codec, b)
    requires i < |a| && i < |b| && a[i].event.eventHash == b[i].event.eventHash
    ensures a[..i + 1] == b[..i + 1]
  {
    assert Continues(codec, a, i, a[0].event.payload.runId, a[0].event.payload.traceId);
    assert Continues(codec, b, i, b[0].event.payload.runId, b[0].event.payload.traceId);
    assert a[i] == b[i];
    if i > 0 {
      SameHashSameHistory(codec, a, b, i - 1);
    }
    assert a[..i + 1] == a[..i] + [a[i]] && b[..i + 1] == b[..i] + [b[i]];
  }

  /** Main result: two accepted files with one final hash hold the same events in the same order. */
  lemma FinalHashFixesHistory(codec: Codec, a: seq<Line>, b: seq<Line>, finalHash: Digest, runA: Option<string>,
                              runB: Option<string>)
    requires Injective(codec.digest)
    requires Accepts(codec, a, Some(finalHash), runA) && Accepts(codec, b, Some(finalHash), runB)
    ensures a == b
  {
    var m, n := |a| - 1, |b| - 1;
    assert Continues(codec, a, m, a[0].event.payload.runId, a[0].event.payload.traceId);
    assert Continues(codec, b, n, b[0].event.payload.runId, b[0].event.payload.traceId);
    assert a[m].event.payload == b[n].event.payload;
    SameHashSameHistory(codec, a, b, m);
    assert a[..m + 1] == a && b[..n + 1] == b;
  }

  /** Every prefix of a chain is a chain, so truncation is caught by the final hash alone. */
  lemma TruncationIsCaught(codec: Codec, lines: seq<Line>, n: nat, finalHash: Digest)
    requires Injective(codec.digest) && Accepts(codec, lines, Some(finalHash), None) && 0 < n < |lines|
    ensures Accepts(codec, lines[..n], None, None)
    ensures !Accepts(codec, lines[..n], Some(finalHash), None)
  {
    var cut := lines[..n];
    forall i | 0 <= i < n
      ensures Continues(codec, cut, i, cut[0].event.payload.runId, cut[0].event.payload.traceId)
    {
      assert Continues(codec, lines, i, lines[0].event.payload.runId, lines[0].event.payload.traceId);
    }
    if Accepts(codec, cut, Some(finalHash), None) {
      FinalHashFixesHistory(codec, lines, cut, finalHash, None, None);
    }
  }

  // ----- The writer -----

  /** What a failed write may have left in the file. */
  datatype WriteOutcome = Durable | FailedClean | FailedTorn | FailedUnsynced

  /** Why an event was not appended. */
  datatype AppendError = ChainClosed | SchemaInvalid | EventTooLarge | NotDurable

  datatype AppendResult = Appended(event: Event) | AuditError(reason: AppendError)

  class AuditChain {
    const codec: Codec
    const runId: string
    const traceId: string
    var file: seq<Line>
    var finalHash: Option<Digest>
    var eventCount: nat
    var closed: bool
    ghost var torn: bool

    /** Until a write fails, the file is the chain that the fields describe. */
    ghost predicate Valid()
      reads this
    {
      && (torn ==> closed)
      && eventCount <= |file|
      && Chained(codec, file, eventCount, runId, traceId)
      && finalHash == (if eventCount == 0 then None else Some(file[eventCount - 1].event.eventHash))
      && (!torn ==> eventCount == |file|)
    }

    constructor (codec: Codec, runId: string, traceId: string)
      ensures Valid() && !closed && !torn && file == [] && eventCount == 0 && finalHash == None
      ensures this.codec == codec && this.runId == runId && this.traceId == traceId
    {
      this.codec, this.runId, this.traceId := codec, runId, traceId;
      file, finalHash, eventCount, closed, torn := [], None, 0, false, false;
    }

    /** The payload of the next event, which follows the last one that was recorded. */
    ghost function NextPayload(eventType: EventType, attributes: string, spanId: string, parentSpanId: Option<string>,
                         timestamp: string): Payload
      reads this
      requires Valid()
    {
      Payload(eventCount, timestamp, traceId, spanId, parentSpanId, runId, eventType, attributes,
              PreviousHash(file, eventCount))
    }

    /** Validate, chain and durably append one event. */
    method Append(eventType: EventType, attributes: string, spanId: string, parentSpanId: Option<string>,
                  timestamp: string, outcome: WriteOutcome)
      returns (r: AppendResult)
      requires Valid()
      modifies this
      ensures Valid()
      ensures r.Appended? <==>
        && !old(closed) && outcome == Durable
        && var p := old(NextPayload(eventType, attributes, spanId, parentSpanId, timestamp));
           codec.valid(p) && codec.size(Event(p, codec.digest(p))) <= MAX_EVENT_BYTES
      ensures r.Appended? ==>
        && r.event.payload == old(NextPayload(eventType, attributes, spanId, parentSpanId, timestamp))
        && r.event.eventHash == codec.digest(r.event.payload)
        && file == old(file) + [Parsed(r.event)]
        && finalHash == Some(r.event.eventHash) && eventCount == old(eventCount) + 1
        && closed == old(closed) && torn == old(torn)
      ensures r.AuditError? ==>
        var p := old(NextPayload(eventType, attributes, spanId, parentSpanId, timestamp));
        r.reason ==
          if old(closed) then ChainClosed
          else if !codec.valid(p) then SchemaInvalid
          else if codec.size(Event(p, codec.digest(p))) > MAX_EVENT_BYTES then EventTooLarge
          else NotDurable
      ensures r.AuditError? ==> finalHash == old(finalHash) && eventCount == old(eventCount)
      ensures r.AuditError? && r.reason == NotDurable ==> closed && torn && old(file) <= file
      ensures r.AuditError? && r.reason != NotDurable ==> unchanged(this)
    {
      hide Chained, Continues;
      if closed {
        return AuditError(ChainClosed);
      }
      var previousHash := if finalHash.Some? then finalHash.value else GENESIS_HASH;
      var payload := Payload(
        eventCount, timestamp, traceId, spanId, parentSpanId, runId, eventType, attributes, previousHash);
      assert payload == old(NextPayload(eventType, attributes, spanId, parentSpanId, timestamp));
      hide NextPayload;
      if !codec.valid(payload) {
        return AuditError(SchemaInvalid);
      }
      var digest := codec.digest(payload);
      var event := Event(payload, digest);
      if codec.size(event) > MAX_EVENT_BYTES {
        return AuditError(EventTooLarge);
      }
      if outcome != Durable {
        FailWrite(event, outcome);
        return AuditError(NotDurable);
      }
      file := file + [Parsed(event)];
      OneMoreEvent(codec, old(file), event, runId, traceId);
      finalHash := Some(digest);
      eventCount := eventCount + 1;
      return Appended(event);
    }

    /** A write that failed closes the chain, and may leave bytes behind the events that were recorded. */
    method FailWrite(event: Event, outcome: WriteOutcome)
      requires Valid() && outcome != Durable
      modifies this
      ensures Valid() && closed && torn
      ensures finalHash == old(finalHash) && eventCount == old(eventCount)
      ensures file == old(file) + match outcome
        case FailedTorn => [Unreadable("noncanonical_json")]
        case FailedUnsynced => [Parsed(event)]
        case _ => []
    {
      hide Continues;
      closed, torn := true, true;
      match outcome {
        case FailedTorn => file := file + [Unreadable("noncanonical_json")];
        case FailedUnsynced => file := file + [Parsed(event)];
        case _ =>
      }
      ExtendedKeepsChain(codec, old(file), file, eventCount, runId, traceId);
    }

    method Close()
      requires Valid()
      modifies this
      ensures Valid() && closed
      ensures file == old(file) && finalHash == old(finalHash) && eventCount == old(eventCount) && torn == old(torn)
    {
      closed := true;
    }
  }

  lemma ExtendedKeepsChain(codec: Codec, before: seq<Line>, after: seq<Line>, n: nat, runId: string, traceId: string)
    requires n <= |before| && Chained(codec, before, n, runId, traceId) && before <= after
    ensures Chained(codec, after, n, runId, traceId)
  {
    assert forall i | 0 <= i < n :: after[i] == before[i];
    forall i | 0 <= i < n ensures Continues(codec, after, i, runId, traceId) {
      assert Continues(codec, before, i, runId, traceId);
    }
  }

  lemma OneMoreEvent(codec: Codec, before: seq<Line>, event: Event, runId: string, traceId: string)
    requires Chained(codec, before, |before|, runId, traceId)
    requires var Event(p, hash) := event;
      && codec.valid(p) && codec.size(event) <= MAX_EVENT_BYTES && hash == codec.digest(p)
      && p.sequence == |before| && p.traceId == traceId && p.runId == runId
      && p.previousHash == if before == [] then GENESIS_HASH else before[|before| - 1].event.eventHash
    ensures Chained(codec, before + [Parsed(event)], |before| + 1, runId, traceId)
  {
    var after := before + [Parsed(event)];
    ExtendedKeepsChain(codec, before, after, |before|, runId, traceId);
    assert Continues(codec, after, |before|, runId, traceId);
  }

  /** What `Valid` says about a writer whose writes all succeeded, as a property of its file. */
  ghost predicate Recorded(codec: Codec, file: seq<Line>, finalHash: Option<Digest>, eventCount: nat, runId: string,
                           traceId: string)
  {
    && eventCount <= |file| && Chained(codec, file, eventCount, runId, traceId)
    && finalHash == (if eventCount == 0 then None else Some(file[eventCount - 1].event.eventHash))
  }

  /** Main result: a file verifies against what its writer recorded exactly when it holds those events and no more. */
  lemma RecordedChainVerifies(codec: Codec, file: seq<Line>, finalHash: Option<Digest>, eventCount: nat, runId: string,
                              traceId: string)
    requires Injective(codec.digest) && eventCount > 0
    requires Recorded(codec, file, finalHash, eventCount, runId, traceId)
    ensures Accepts(codec, file, finalHash, Some(runId)) <==> |file| == eventCount
  {
    assert Continues(codec, file, 0, runId, traceId);
    if |file| == eventCount {
      assert Accepts(codec, file, finalHash, Some(runId));
    } else if Accepts(codec, file, finalHash, Some(runId)) {
      HashesDiffer(codec, file, eventCount - 1, |file| - 1);
    }
  }

  /** No hash repeats along a chain, because every payload carries its sequence number. */
  lemma HashesDiffer(codec: Codec, file: seq<Line>, m: nat, n: nat)
    requires Injective(codec.digest) && m < n < |file| && IsChain(codec, file)
    ensures file[m].event.eventHash != file[n].event.eventHash
  {
    assert Continues(codec, file, m, file[0].event.payload.runId, file[0].event.payload.traceId);
    assert Continues(codec, file, n, file[0].event.payload.runId, file[0].event.payload.traceId);
  }
}
