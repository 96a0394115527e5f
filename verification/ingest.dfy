/**
 One call of `getMessages` (s3kibanalogs.go:88-163) over a received batch.
 The queue, the object store, decompression and line splitting are given
 as inputs: each record of a message comes with the outcome of fetching
 its object, either a failure or the object's scanned lines. What the
 call does is recorded as a trace of events: an `Emit` for every entry
 pushed on the hand-off channel and an `Ack` for every message deleted
 from the queue.

 `RunBatch` is the reference definition, message by message and record by
 record; `GetMessages` follows the loops of the source and is proved to
 produce the same trace.
 */
module Ingest {
  import opened Wrappers
  import opened KeyPath
  import opened LinePattern
  import opened LogEntry

  datatype Bucket = Bucket(name: string, arn: string)
  datatype S3Object = S3Object(key: string)
  datatype S3Info = S3Info(schemaVersion: string, bucket: Bucket, obj: S3Object)

  /** One record of a notification envelope (s3kibanalogs.go:37-42). */
  datatype Record = Record(eventVersion: string, eventTime: string, eventName: string, s3: S3Info)

  /** What fetching and decompressing a record's object gave. */
  datatype Download = DownloadFailed | Downloaded(lines: seq<Line>)

  /** A record together with the outcome of fetching its object. */
  datatype Notice = Notice(record: Record, download: Download)

  /** One received queue message: its receipt handle and its decoded records. */
  datatype Message = Message(receiptHandle: string, notices: seq<Notice>)

  /** An entry pushed on the channel, or a message deleted from the queue. */
  datatype Event = Emit(entry: ESLogEntry) | Ack(handle: string)

  /**
   How a record can end the call early: reading segment 1 of a key without
   a separator panics (s3kibanalogs.go:110), which ends the process; a
   failed download returns from the call (s3kibanalogs.go:121-124), after
   which the next poll begins.
   */
  datatype StopKind = IndexPanic | DownloadFailure

  /** The record (by index in its message) that ended the call, and how. */
  datatype Stop = Stop(record: nat, kind: StopKind)

  /** The message (by index in the batch) whose record ended the call. */
  datatype Halt = Halt(message: nat, stop: Stop)

  /**
   One record: the entries of its object's lines, or why it stops the call.
   The key is decomposed before the download is looked at, so a bad key
   stops the call whatever the download gave.
   */
  function RecordStep(n: Notice): (r: Result<seq<ESLogEntry>, StopKind>)
    ensures r.Failure? <==> Sep !in n.record.s3.obj.key || n.download.DownloadFailed?
    ensures r == Failure(IndexPanic) <==> Sep !in n.record.s3.obj.key
    ensures r.Success? ==> r.value == EntriesFor(DecomposeKey(n.record.s3.obj.key).value, n.download.lines)
  {
    match DecomposeKey(n.record.s3.obj.key)
    case Failure(_) => Failure(IndexPanic)
    case Success(info) =>
      match n.download
      case DownloadFailed => Failure(DownloadFailure)
      case Downloaded(lines) => Success(EntriesFor(info, lines))
  }

  /** The entries of a message's records up to the first one that stops the call. */
  datatype Run = Run(entries: seq<ESLogEntry>, stop: Option<Stop>)

  function ShiftStop(s: Option<Stop>, offset: nat): Option<Stop>
  {
    match s
    case None => None
    case Some(Stop(j, k)) => Some(Stop(j + offset, k))
  }

  /**
   The outcome of every record of a message, in order. The ensures only
   unfold the body for the proofs; they state no property of the source.
   */
  function Steps(ns: seq<Notice>): (steps: seq<Result<seq<ESLogEntry>, StopKind>>)
    ensures |steps| == |ns|
    ensures forall j :: 0 <= j < |ns| ==> steps[j] == RecordStep(ns[j])
  {
    seq(|ns|, j requires 0 <= j < |ns| => RecordStep(ns[j]))
  }

  /**
   Record outcomes taken in order: the entries of the successful ones are
   concatenated, and the first failure ends the run.
   */
  function RunSteps(steps: seq<Result<seq<ESLogEntry>, StopKind>>): Run
    decreases |steps|
  {
    if steps == [] then Run([], None)
    else
      match steps[0]
      case Failure(k) => Run([], Some(Stop(0, k)))
      case Success(es) =>
        var rest := RunSteps(steps[1..]);
        Run(es + rest.entries, ShiftStop(rest.stop, 1))
  }

  /** A run stops exactly at its first failing outcome. */
  lemma {:induction false} RunStepsStop(steps: seq<Result<seq<ESLogEntry>, StopKind>>)
    ensures RunSteps(steps).stop.None? <==> forall j :: 0 <= j < |steps| ==> steps[j].Success?
    ensures RunSteps(steps).stop.Some? ==>
      && RunSteps(steps).stop.value.record < |steps|
      && steps[RunSteps(steps).stop.value.record] == Failure(RunSteps(steps).stop.value.kind)
      && forall j :: 0 <= j < RunSteps(steps).stop.value.record ==> steps[j].Success?
    decreases |steps|
  {
    if steps != [] && steps[0].Success? {
      RunStepsStop(steps[1..]);
      assert forall j :: 0 < j < |steps| ==> steps[j] == steps[1..][j - 1];
    }
  }

  /**
   The records of one message in order. The run stops at the first record
   that fails, and only then.
   */
  function RunRecords(ns: seq<Notice>): (r: Run)
    ensures r.stop.Some? ==>
      && r.stop.value.record < |ns|
      && (r.stop.value.kind == IndexPanic <==> Sep !in ns[r.stop.value.record].record.s3.obj.key)
      && (r.stop.value.kind == DownloadFailure ==> ns[r.stop.value.record].download.DownloadFailed?)
  {
    RunStepsStop(Steps(ns));
    RunSteps(Steps(ns))
  }

  /**
   A message's run stops at its first failing record, and only if some
   record fails.
   */
  lemma RunRecordsStop(ns: seq<Notice>)
    ensures RunRecords(ns).stop.None? <==> forall j :: 0 <= j < |ns| ==> RecordStep(ns[j]).Success?
    ensures RunRecords(ns).stop.Some? ==>
      && RunRecords(ns).stop.value.record < |ns|
      && RecordStep(ns[RunRecords(ns).stop.value.record]) == Failure(RunRecords(ns).stop.value.kind)
      && forall j :: 0 <= j < RunRecords(ns).stop.value.record ==> RecordStep(ns[j]).Success?
  {
    RunStepsStop(Steps(ns));
  }

  /**
   The entries of the successful outcomes, concatenated in order, with no
   stop: what the records yield when nothing ends the loop early.
   */
  function Successes(steps: seq<Result<seq<ESLogEntry>, StopKind>>): seq<ESLogEntry>
    decreases |steps|
  {
    if steps == [] then []
    else (if steps[0].Success? then steps[0].value else []) + Successes(steps[1..])
  }

  /** How many outcomes a run takes in: all of them, or those before its stop. */
  function Taken(r: Run, size: nat): nat
  {
    if r.stop.Some? then r.stop.value.record else size
  }

  /** A run carries exactly the entries of the outcomes before its stop. */
  lemma {:induction false} RunStepsEntries(steps: seq<Result<seq<ESLogEntry>, StopKind>>)
    ensures Taken(RunSteps(steps), |steps|) <= |steps|
    ensures RunSteps(steps).entries == Successes(steps[..Taken(RunSteps(steps), |steps|)])
    decreases |steps|
  {
    if steps != [] && steps[0].Success? {
      var rest := steps[1..];
      RunStepsEntries(rest);
      var k' := Taken(RunSteps(rest), |rest|);
      var k := Taken(RunSteps(steps), |steps|);
      assert k == k' + 1;
      assert steps[..k][0] == steps[0];
      assert steps[..k][1..] == rest[..k'];
    }
  }

  /**
   The entries of a message's run are those of its records before the one
   that stops it (or of all its records), in order: every record before
   that point succeeds, and their entries are concatenated. So a message
   that stops still pushes the entries of its earlier records.
   */
  lemma RunRecordsEntries(ns: seq<Notice>)
    ensures Taken(RunRecords(ns), |ns|) <= |ns|
    ensures forall j :: 0 <= j < Taken(RunRecords(ns), |ns|) ==> RecordStep(ns[j]).Success?
    ensures RunRecords(ns).entries == Successes(Steps(ns[..Taken(RunRecords(ns), |ns|)]))
  {
    var steps := Steps(ns);
    RunStepsStop(steps);
    RunStepsEntries(steps);
    var k := Taken(RunRecords(ns), |ns|);
    var left, right := steps[..k], Steps(ns[..k]);
    forall j | 0 <= j < k
      ensures left[j] == right[j]
    {
      assert ns[..k][j] == ns[j];
    }
    assert left == right;
  }

  /** The channel pushes of a sequence of entries. */
  function Emits(es: seq<ESLogEntry>): seq<Event>
    decreases |es|
  {
    if es == [] then [] else [Emit(es[0])] + Emits(es[1..])
  }

  /** What one call of `getMessages` does: its trace and, if any, the record that ended it. */
  datatype BatchResult = BatchResult(events: seq<Event>, halt: Option<Halt>)

  function ShiftHalt(h: Option<Halt>, offset: nat): Option<Halt>
  {
    match h
    case None => None
    case Some(Halt(i, s)) => Some(Halt(i + offset, s))
  }

  /** A message's receipt handle and the run of its records. */
  datatype MessageRun = MessageRun(handle: string, run: Run)

  /**
   The run of every message of a batch, in order. The ensures only unfold
   the body for the proofs; they state no property of the source.
   */
  function Runs(ms: seq<Message>): (rs: seq<MessageRun>)
    ensures |rs| == |ms|
    ensures forall k :: 0 <= k < |ms| ==> rs[k] == MessageRun(ms[k].receiptHandle, RunRecords(ms[k].notices))
  {
    seq(|ms|, k requires 0 <= k < |ms| => MessageRun(ms[k].receiptHandle, RunRecords(ms[k].notices)))
  }

  /**
   Message runs taken in order: a complete run pushes its entries and then
   deletes its message; the first incomplete run pushes what it has and
   ends the call.
   */
  function Chain(rs: seq<MessageRun>): BatchResult
    decreases |rs|
  {
    if rs == [] then BatchResult([], None)
    else
      match rs[0].run.stop
      case Some(s) => BatchResult(Emits(rs[0].run.entries), Some(Halt(0, s)))
      case None =>
        var rest := Chain(rs[1..]);
        BatchResult(Emits(rs[0].run.entries) + [Ack(rs[0].handle)] + rest.events, ShiftHalt(rest.halt, 1))
  }

  /** The chain halts exactly at its first incomplete run. */
  lemma {:induction false} ChainHalt(rs: seq<MessageRun>)
    ensures Chain(rs).halt.None? <==> forall k :: 0 <= k < |rs| ==> rs[k].run.stop.None?
    ensures Chain(rs).halt.Some? ==>
      && Chain(rs).halt.value.message < |rs|
      && rs[Chain(rs).halt.value.message].run.stop == Some(Chain(rs).halt.value.stop)
      && forall k :: 0 <= k < Chain(rs).halt.value.message ==> rs[k].run.stop.None?
    decreases |rs|
  {
    if rs != [] && rs[0].run.stop.None? {
      ChainHalt(rs[1..]);
      assert forall k :: 0 < k < |rs| ==> rs[k] == rs[1..][k - 1];
    }
  }

  /**
   The messages of a batch in order: every entry of every record of a
   message is pushed, then the message is deleted; the first record that
   fails ends the call, so its message is not deleted and later messages
   are not looked at.
   */
  function RunBatch(ms: seq<Message>): (r: BatchResult)
    ensures r.halt.Some? ==>
      && r.halt.value.message < |ms|
      && RunRecords(ms[r.halt.value.message].notices).stop == Some(r.halt.value.stop)
  {
    ChainHalt(Runs(ms));
    Chain(Runs(ms))
  }

  /**
   The call ends early exactly when some message has a failing record, and
   then at the first such message, after every earlier message completed.
   */
  lemma RunBatchHalt(ms: seq<Message>)
    ensures RunBatch(ms).halt.None? <==> forall k :: 0 <= k < |ms| ==> RunRecords(ms[k].notices).stop.None?
    ensures RunBatch(ms).halt.Some? ==>
      && RunBatch(ms).halt.value.message < |ms|
      && RunRecords(ms[RunBatch(ms).halt.value.message].notices).stop == Some(RunBatch(ms).halt.value.stop)
      && forall k :: 0 <= k < RunBatch(ms).halt.value.message ==> RunRecords(ms[k].notices).stop.None?
  {
    ChainHalt(Runs(ms));
  }

  /** A trace prefix followed by the result of the messages that come after it. */
  function Then(prefix: seq<Event>, r: BatchResult, offset: nat): BatchResult
  {
    BatchResult(prefix + r.events, ShiftHalt(r.halt, offset))
  }

  lemma AppendAssoc<T>(a: seq<T>, b: seq<T>, c: seq<T>)
    ensures a + (b + c) == a + b + c
  {
  }

  /** Taking one more element of a sequence. */
  lemma TakeOneMore<T>(s: seq<T>, j: nat)
    requires j < |s|
    ensures s[..j + 1] == s[..j] + [s[j]]
  {
  }

  /** A sequence is its prefix through j followed by the rest. */
  lemma SplitAfter<T>(s: seq<T>, j: nat)
    requires j < |s|
    ensures s == s[..j + 1] + s[j + 1..]
  {
  }

  /** Pushing two runs of entries is pushing their concatenation. */
  lemma {:induction false} EmitsAppend(a: seq<ESLogEntry>, b: seq<ESLogEntry>)
    ensures Emits(a + b) == Emits(a) + Emits(b)
    decreases |a|
  {
    if a == [] {
      assert a + b == b;
    } else {
      EmitsAppend(a[1..], b);
      assert (a + b)[1..] == a[1..] + b;
      assert (a + b)[0] == a[0];
    }
  }

  /** After a run that did not stop, the next record outcomes continue the run. */
  lemma {:induction false} RunStepsAppend(a: seq<Result<seq<ESLogEntry>, StopKind>>, b: seq<Result<seq<ESLogEntry>, StopKind>>)
    requires RunSteps(a).stop.None?
    ensures RunSteps(a + b) == Run(RunSteps(a).entries + RunSteps(b).entries, ShiftStop(RunSteps(b).stop, |a|))
    decreases |a|
  {
    if a == [] {
      assert a + b == b;
      assert ShiftStop(RunSteps(b).stop, 0) == RunSteps(b).stop;
    } else {
      assert (a + b)[0] == a[0];
      assert (a + b)[1..] == a[1..] + b;
      RunStepsAppend(a[1..], b);
      assert RunSteps(a[1..]).entries + RunSteps(b).entries == RunSteps(a[1..] + b).entries;
    }
  }

  /** A single record outcome on its own. */
  lemma RunStepsSingle(x: Result<seq<ESLogEntry>, StopKind>)
    ensures x.Success? ==> RunSteps([x]) == Run(x.value, None)
    ensures x.Failure? ==> RunSteps([x]) == Run([], Some(Stop(0, x.error)))
  {
    assert [x][1..] == [];
    assert x.Success? ==> x.value + [] == x.value;
  }

  /** Record outcomes after a failure change nothing. */
  lemma {:induction false} RunStepsHalted(a: seq<Result<seq<ESLogEntry>, StopKind>>, b: seq<Result<seq<ESLogEntry>, StopKind>>)
    requires RunSteps(a).stop.Some?
    ensures RunSteps(a + b) == RunSteps(a)
    decreases |a|
  {
    assert (a + b)[0] == a[0];
    if a[0].Success? {
      assert (a + b)[1..] == a[1..] + b;
      RunStepsHalted(a[1..], b);
    }
  }

  /** After messages that were all deleted, the next messages continue the trace. */
  lemma {:induction false} ChainAppend(a: seq<MessageRun>, b: seq<MessageRun>)
    requires Chain(a).halt.None?
    ensures Chain(a + b) == Then(Chain(a).events, Chain(b), |a|)
    decreases |a|
  {
    if a == [] {
      assert a + b == b;
      assert ShiftHalt(Chain(b).halt, 0) == Chain(b).halt;
    } else {
      assert (a + b)[0] == a[0];
      assert (a + b)[1..] == a[1..] + b;
      ChainAppend(a[1..], b);
    }
  }

  /** Messages after the one that ended the call change nothing. */
  lemma {:induction false} ChainHalted(a: seq<MessageRun>, b: seq<MessageRun>)
    requires Chain(a).halt.Some?
    ensures Chain(a + b) == Chain(a)
    decreases |a|
  {
    assert (a + b)[0] == a[0];
    if a[0].run.stop.None? {
      assert (a + b)[1..] == a[1..] + b;
      ChainHalted(a[1..], b);
    }
  }

  /** Pushing the entry of one more line extends the pushes of the lines before it. */
  lemma PushOne(info: KeyInfo, lines: seq<Line>, k: nat)
    requires k < |lines|
    ensures Emits(EntriesFor(info, lines[..k])) + [Emit(MakeEntry(info, lines[k]))] == Emits(EntriesFor(info, lines[..k + 1]))
  {
    EntriesForSnoc(info, lines, k);
    EmitsAppend(EntriesFor(info, lines[..k]), [MakeEntry(info, lines[k])]);
  }

  /** Scanning an object's lines (s3kibanalogs.go:135-158): one push per line, in order. */
  method PushLines(info: KeyInfo, lines: seq<Line>) returns (pushed: seq<Event>)
    ensures pushed == Emits(EntriesFor(info, lines))
  {
    pushed := [];
    var k := 0;
    while k < |lines|
      invariant 0 <= k <= |lines|
      invariant pushed == Emits(EntriesFor(info, lines[..k]))
      decreases |lines| - k
    {
      PushOne(info, lines, k);
      pushed := pushed + [Emit(MakeEntry(info, lines[k]))];
      k := k + 1;
    }
    assert lines[..k] == lines;
  }

  /**
   One record (s3kibanalogs.go:105-158): split the key, give up on a failed
   download, otherwise push an entry per line.
   */
  method ProcessRecord(n: Notice) returns (pushed: seq<Event>, stop: Option<StopKind>)
    ensures RecordStep(n).Success? ==> pushed == Emits(RecordStep(n).value) && stop.None?
    ensures RecordStep(n).Failure? ==> pushed == [] && stop == Some(RecordStep(n).error)
  {
    match DecomposeKey(n.record.s3.obj.key) {
      case Failure(_) =>
        pushed, stop := [], Some(IndexPanic);
      case Success(info) =>
        match n.download {
          case DownloadFailed =>
            pushed, stop := [], Some(DownloadFailure);
          case Downloaded(lines) =>
            pushed := PushLines(info, lines);
            stop := None;
        }
    }
  }

  /** One more record outcome after a run that has not stopped. */
  lemma RunStepsNext(steps: seq<Result<seq<ESLogEntry>, StopKind>>, j: nat)
    requires j < |steps| && RunSteps(steps[..j]).stop.None?
    ensures steps[j].Success? ==> RunSteps(steps[..j + 1]) == Run(RunSteps(steps[..j]).entries + steps[j].value, None)
    ensures steps[j].Failure? ==> RunSteps(steps) == Run(RunSteps(steps[..j]).entries, Some(Stop(j, steps[j].error)))
  {
    TakeOneMore(steps, j);
    RunStepsAppend(steps[..j], [steps[j]]);
    RunStepsSingle(steps[j]);
    if steps[j].Failure? {
      SplitAfter(steps, j);
      RunStepsHalted(steps[..j + 1], steps[j + 1..]);
      assert RunSteps(steps[..j]).entries + [] == RunSteps(steps[..j]).entries;
    }
  }

  /** One more message run after a chain that has not halted. */
  lemma ChainNext(rs: seq<MessageRun>, i: nat)
    requires i < |rs| && Chain(rs[..i]).halt.None?
    ensures rs[i].run.stop.None? ==>
      Chain(rs[..i + 1]) == BatchResult(Chain(rs[..i]).events + Emits(rs[i].run.entries) + [Ack(rs[i].handle)], None)
    ensures rs[i].run.stop.Some? ==>
      Chain(rs) == BatchResult(Chain(rs[..i]).events + Emits(rs[i].run.entries), Some(Halt(i, rs[i].run.stop.value)))
  {
    TakeOneMore(rs, i);
    ChainAppend(rs[..i], [rs[i]]);
    assert [rs[i]][1..] == [];
    if rs[i].run.stop.Some? {
      SplitAfter(rs, i);
      ChainHalted(rs[..i + 1], rs[i + 1..]);
    } else {
      assert Emits(rs[i].run.entries) + [Ack(rs[i].handle)] + [] == Emits(rs[i].run.entries) + [Ack(rs[i].handle)];
    }
  }

  /** The records of one message in order, up to the first that fails (s3kibanalogs.go:105-159). */
  method ProcessMessage(m: Message) returns (pushed: seq<Event>, stop: Option<Stop>)
    ensures pushed == Emits(RunRecords(m.notices).entries)
    ensures stop == RunRecords(m.notices).stop
  {
    var ns := m.notices;
    ghost var steps := Steps(ns);
    pushed := [];
    var j := 0;
    while j < |ns|
      invariant 0 <= j <= |ns|
      invariant RunSteps(steps[..j]).stop.None?
      invariant pushed == Emits(RunSteps(steps[..j]).entries)
      decreases |ns| - j
    {
      var more, failed := ProcessRecord(ns[j]);
      RunStepsNext(steps, j);
      if failed.Some? {
        stop := Some(Stop(j, failed.value));
        return;
      }
      EmitsAppend(RunSteps(steps[..j]).entries, steps[j].value);
      pushed := pushed + more;
      j := j + 1;
    }
    assert steps[..j] == steps;
    stop := None;
  }

  /**
   `getMessages` over a received batch (s3kibanalogs.go:97-162): each
   message's records are processed in order and the message is then deleted;
   a record that fails ends the call at once.
   */
  method GetMessages(batch: seq<Message>) returns (events: seq<Event>, halt: Option<Halt>)
    ensures BatchResult(events, halt) == RunBatch(batch)
  {
    ghost var rs := Runs(batch);
    events := [];
    var i := 0;
    while i < |batch|
      invariant 0 <= i <= |batch|
      invariant Chain(rs[..i]).halt.None?
      invariant events == Chain(rs[..i]).events
      decreases |batch| - i
    {
      var pushed, stop := ProcessMessage(batch[i]);
      ChainNext(rs, i);
      events := events + pushed;
      if stop.Some? {
        halt := Some(Halt(i, stop.value));
        return;
      }
      events := events + [Ack(batch[i].receiptHandle)];
      i := i + 1;
    }
    assert rs[..i] == rs;
    halt := None;
  }

  /** The handles of the messages deleted along a trace, in order. */
  function Acked(events: seq<Event>): seq<string>
    decreases |events|
  {
    if events == [] then []
    else (if events[0].Ack? then [events[0].handle] else []) + Acked(events[1..])
  }

  /**
   The receipt handles of a run of messages, in order. The ensures only
   unfold the body for the proofs; they state no property of the source.
   */
  function Receipts(ms: seq<Message>): (hs: seq<string>)
    ensures |hs| == |ms|
    ensures forall k :: 0 <= k < |ms| ==> hs[k] == ms[k].receiptHandle
  {
    seq(|ms|, k requires 0 <= k < |ms| => ms[k].receiptHandle)
  }

  /**
   The handles of a sequence of message runs, in order. The ensures only
   unfold the body for the proofs; they state no property of the source.
   */
  function Handles(rs: seq<MessageRun>): (hs: seq<string>)
    ensures |hs| == |rs|
    ensures forall k :: 0 <= k < |rs| ==> hs[k] == rs[k].handle
  {
    seq(|rs|, k requires 0 <= k < |rs| => rs[k].handle)
  }

  /** How many runs of a chain complete: all of them, or those before the halt. */
  function Done(rs: seq<MessageRun>): nat
  {
    match Chain(rs).halt
    case None => |rs|
    case Some(h) => h.message
  }

  /** How many messages of a batch are deleted: all of them, or those before the halt. */
  function Completed(ms: seq<Message>): nat
  {
    match RunBatch(ms).halt
    case None => |ms|
    case Some(h) => h.message
  }

  lemma {:induction false} AckedAppend(a: seq<Event>, b: seq<Event>)
    ensures Acked(a + b) == Acked(a) + Acked(b)
    decreases |a|
  {
    if a == [] {
      assert a + b == b;
    } else {
      assert (a + b)[0] == a[0];
      assert (a + b)[1..] == a[1..] + b;
      AckedAppend(a[1..], b);
    }
  }

  /** Pushing entries deletes no message. */
  lemma {:induction false} AckedEmits(es: seq<ESLogEntry>)
    ensures Acked(Emits(es)) == []
    decreases |es|
  {
    if es != [] {
      AckedAppend([Emit(es[0])], Emits(es[1..]));
      AckedEmits(es[1..]);
      assert [Emit(es[0])][1..] == [];
    }
  }

  /** A chain deletes exactly its completed runs' messages, each once, in order. */
  lemma {:induction false} ChainAcks(rs: seq<MessageRun>)
    ensures Done(rs) <= |rs|
    ensures Acked(Chain(rs).events) == Handles(rs[..Done(rs)])
    decreases |rs|
  {
    if rs == [] {
    } else if rs[0].run.stop.Some? {
      AckedEmits(rs[0].run.entries);
    } else {
      var rest := Chain(rs[1..]);
      ChainAcks(rs[1..]);
      AckedAppend(Emits(rs[0].run.entries) + [Ack(rs[0].handle)], rest.events);
      AckedAppend(Emits(rs[0].run.entries), [Ack(rs[0].handle)]);
      AckedEmits(rs[0].run.entries);
      assert Acked([Ack(rs[0].handle)]) == [rs[0].handle];
      assert Done(rs) == Done(rs[1..]) + 1;
      assert Handles(rs[..Done(rs)]) == [rs[0].handle] + Handles(rs[1..][..Done(rs[1..])]);
    }
  }

  /** The prefix and the suffix of a batch give the matching slices of its runs. */
  lemma RunsSlice(ms: seq<Message>, a: nat, b: nat)
    requires a <= b <= |ms|
    ensures Runs(ms[a..b]) == Runs(ms)[a..b]
  {
    var left := Runs(ms[a..b]);
    var right := Runs(ms)[a..b];
    forall k | 0 <= k < b - a
      ensures left[k] == right[k]
    {
      assert ms[a..b][k] == ms[a + k];
    }
  }

  /**
   A call deletes exactly the messages it completes, each once and in batch
   order (s3kibanalogs.go:160-161): every message when no record fails,
   otherwise those before the one whose record failed.
   */
  lemma BatchAcks(ms: seq<Message>)
    ensures Completed(ms) <= |ms|
    ensures Acked(RunBatch(ms).events) == Receipts(ms[..Completed(ms)])
  {
    var rs := Runs(ms);
    ChainAcks(rs);
    assert Done(rs) == Completed(ms);
    RunsSlice(ms, 0, Completed(ms));
    assert ms[0..Completed(ms)] == ms[..Completed(ms)];
    assert rs[0..Completed(ms)] == rs[..Completed(ms)];
  }

  /** In a chain, a completed run's entries come right before its deletion. */
  lemma {:induction false} ChainAt(rs: seq<MessageRun>, k: nat)
    requires k < |rs| && k < Done(rs)
    ensures Chain(rs).events ==
      Chain(rs[..k]).events + Emits(rs[k].run.entries) + [Ack(rs[k].handle)] + Chain(rs[k + 1..]).events
  {
    ChainHalt(rs);
    ChainHalt(rs[..k]);
    assert forall j :: 0 <= j < k ==> rs[..k][j] == rs[j];
    ChainAppend(rs[..k], rs[k..]);
    assert rs == rs[..k] + rs[k..];
    assert rs[k..][0] == rs[k];
    assert rs[k..][1..] == rs[k + 1..];
    var before, pushed, after := Chain(rs[..k]).events, Emits(rs[k].run.entries), Chain(rs[k + 1..]).events;
    var own := pushed + [Ack(rs[k].handle)];
    assert Chain(rs).events == before + (own + after);
    AppendAssoc(before, own, after);
    AppendAssoc(before, pushed, [Ack(rs[k].handle)]);
  }

  /**
   Every entry of every record of a completed message is pushed before the
   message is deleted, and the deletion comes before anything from the next
   message (s3kibanalogs.go:105-161).
   */
  lemma AckAfterEntries(ms: seq<Message>, k: nat)
    requires k < |ms| && k < Completed(ms)
    ensures RunRecords(ms[k].notices).stop.None?
    ensures RunBatch(ms).events ==
      RunBatch(ms[..k]).events + Emits(RunRecords(ms[k].notices).entries)
      + [Ack(ms[k].receiptHandle)] + RunBatch(ms[k + 1..]).events
  {
    var rs := Runs(ms);
    assert Done(rs) == Completed(ms);
    ChainHalt(rs);
    ChainAt(rs, k);
    RunsSlice(ms, 0, k);
    RunsSlice(ms, k + 1, |ms|);
    assert ms[0..k] == ms[..k] && rs[0..k] == rs[..k];
    assert ms[k + 1..|ms|] == ms[k + 1..] && rs[k + 1..|rs|] == rs[k + 1..];
  }

  /** In a chain that halts, the halting run's entries end the trace. */
  lemma {:induction false} ChainStopsAt(rs: seq<MessageRun>)
    requires Chain(rs).halt.Some?
    ensures Chain(rs).halt.value.message < |rs|
    ensures var i := Chain(rs).halt.value.message;
      && rs[i].run.stop.Some?
      && Chain(rs).events == Chain(rs[..i]).events + Emits(rs[i].run.entries)
      && Chain(rs[..i + 1]) == Chain(rs)
  {
    ChainHalt(rs);
    var i := Chain(rs).halt.value.message;
    ChainHalt(rs[..i]);
    assert forall j :: 0 <= j < i ==> rs[..i][j] == rs[j];
    ChainAppend(rs[..i], rs[i..]);
    assert rs == rs[..i] + rs[i..];
    assert rs[i..][0] == rs[i];
    ChainAppend(rs[..i], [rs[i]]);
    assert rs[..i + 1] == rs[..i] + [rs[i]];
  }

  /**
   When a record fails, its message's entries so far end the trace: the
   message is not deleted and no later message of the batch produces any
   event, whatever it holds (s3kibanalogs.go:121-124).
   */
  lemma HaltedBatch(ms: seq<Message>)
    requires RunBatch(ms).halt.Some?
    ensures RunBatch(ms).halt.value.message < |ms|
    ensures var i := RunBatch(ms).halt.value.message;
      && RunRecords(ms[i].notices).stop.Some?
      && RunBatch(ms).events == RunBatch(ms[..i]).events + Emits(RunRecords(ms[i].notices).entries)
      && RunBatch(ms[..i + 1]) == RunBatch(ms)
  {
    var rs := Runs(ms);
    ChainStopsAt(rs);
    var i := Chain(rs).halt.value.message;
    CutRuns(ms, i);
  }

  /** The batch cut before and after message i, and message i's own run. */
  lemma CutRuns(ms: seq<Message>, i: nat)
    requires i < |ms|
    ensures RunRecords(ms[i].notices) == Runs(ms)[i].run
    ensures RunBatch(ms[..i]) == Chain(Runs(ms)[..i])
    ensures RunBatch(ms[..i + 1]) == Chain(Runs(ms)[..i + 1])
  {
    RunBatchPrefix(ms, i);
    RunBatchPrefix(ms, i + 1);
  }

  /** The batch cut after k messages runs the first k message runs. */
  lemma RunBatchPrefix(ms: seq<Message>, k: nat)
    requires k <= |ms|
    ensures RunBatch(ms[..k]) == Chain(Runs(ms)[..k])
  {
    RunsSlice(ms, 0, k);
    assert ms[0..k] == ms[..k];
    assert Runs(ms)[0..k] == Runs(ms)[..k];
  }

  /** The raw lines carried by the successful record outcomes, in order. */
  function StepLines(steps: seq<Result<seq<ESLogEntry>, StopKind>>): seq<string>
    decreases |steps|
  {
    if steps == [] then []
    else (if steps[0].Success? then RawLines(steps[0].value) else []) + StepLines(steps[1..])
  }

  /** The lines of every downloaded object of a message, record after record. */
  function ObjectLines(ns: seq<Notice>): seq<string>
    decreases |ns|
  {
    if ns == [] then []
    else (if ns[0].download.Downloaded? then ns[0].download.lines else []) + ObjectLines(ns[1..])
  }

  /** A run that does not stop carries every line of every outcome, in order. */
  lemma {:induction false} RunStepsLines(steps: seq<Result<seq<ESLogEntry>, StopKind>>)
    requires RunSteps(steps).stop.None?
    ensures RawLines(RunSteps(steps).entries) == StepLines(steps)
    decreases |steps|
  {
    if steps != [] {
      RunStepsLines(steps[1..]);
      RawLinesAppend(steps[0].value, RunSteps(steps[1..]).entries);
    }
  }

  /** Successful records carry exactly their objects' lines. */
  lemma {:induction false} StepsLines(ns: seq<Notice>)
    requires forall j :: 0 <= j < |ns| ==> RecordStep(ns[j]).Success?
    ensures StepLines(Steps(ns)) == ObjectLines(ns)
    decreases |ns|
  {
    if ns != [] {
      var steps := Steps(ns);
      assert steps[1..] == Steps(ns[1..]) by {
        forall j | 0 <= j < |ns| - 1
          ensures steps[1..][j] == Steps(ns[1..])[j]
        {
          assert ns[1..][j] == ns[j + 1];
        }
      }
      assert forall j :: 0 <= j < |ns[1..]| ==> ns[1..][j] == ns[j + 1];
      StepsLines(ns[1..]);
      var key := ns[0].record.s3.obj.key;
      RawLinesRoundTrip(DecomposeKey(key).value, ns[0].download.lines);
    }
  }

  /**
   Every line of every object of a completed message reaches the channel
   exactly once, in line order and record order (s3kibanalogs.go:105-158).
   */
  lemma MessageLines(ns: seq<Notice>)
    requires RunRecords(ns).stop.None?
    ensures RawLines(RunRecords(ns).entries) == ObjectLines(ns)
  {
    RunRecordsStop(ns);
    RunStepsLines(Steps(ns));
    StepsLines(ns);
  }
}
