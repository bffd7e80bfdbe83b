// The outbound queue as the row log of src/outbound_queue.rs: rows are only
// ever appended, readers keep the last row per message id, a row with
// done == true ends its job, and compaction rewrites the log.
module QueueLog {
  import opened Wrappers

  datatype Envelope = Envelope(from: string, to: seq<string>, cc: seq<string>, bcc: seq<string>)

  datatype Job = Job(
    messageId: string,
    instance: string,
    envelope: Envelope,
    rawMime: seq<Byte>,
    attempts: U32,
    nextAttemptAt: int,
    lastError: Option<string>,
    createdAt: int,
    done: bool)

  type JobMap = map<string, Job>

  // read_latest_per_id: insert every row into a map, first to last.
  function Fold(rows: seq<Job>): JobMap {
    if rows == [] then map[]
    else
      var last := rows[|rows| - 1];
      Fold(rows[..|rows| - 1])[last.messageId := last]
  }

  function LiveOf(m: JobMap): JobMap {
    map id | id in m && !m[id].done :: m[id]
  }

  // The abstract state of the queue: the jobs still to be sent, by id.
  function Live(rows: seq<Job>): JobMap {
    LiveOf(Fold(rows))
  }

  // --- The fold is "the last write wins" ---

  lemma FoldAppend(rows: seq<Job>, j: Job)
    ensures Fold(rows + [j]) == Fold(rows)[j.messageId := j]
  {
    assert (rows + [j])[..|rows|] == rows;
  }

  ghost predicate IsLastWrite(rows: seq<Job>, id: string, i: nat) {
    i < |rows| && rows[i].messageId == id && forall k :: i < k < |rows| ==> rows[k].messageId != id
  }

  lemma {:induction false} LastWriteWins(rows: seq<Job>, id: string)
    ensures id in Fold(rows) <==> exists i: nat :: IsLastWrite(rows, id, i)
    ensures forall i: nat :: IsLastWrite(rows, id, i) ==> id in Fold(rows) && Fold(rows)[id] == rows[i]
  {
    if rows != [] {
      var n := |rows| - 1;
      var init := rows[..n];
      LastWriteWins(init, id);
      if rows[n].messageId == id {
        assert IsLastWrite(rows, id, n);
      } else {
        forall i: nat ensures IsLastWrite(rows, id, i) <==> IsLastWrite(init, id, i) {
        }
      }
    }
  }

  // Which rows are pending, and which ids are finished: the last row of the id says so.
  lemma LiveExactly(rows: seq<Job>, id: string)
    ensures id in Live(rows) <==> exists i: nat :: IsLastWrite(rows, id, i) && !rows[i].done
    ensures forall i: nat :: IsLastWrite(rows, id, i) && !rows[i].done ==> Live(rows)[id] == rows[i]
    ensures id in DoneIds(Fold(rows)) <==> exists i: nat :: IsLastWrite(rows, id, i) && rows[i].done
  {
    LastWriteWins(rows, id);
  }

  lemma FoldKeyed(rows: seq<Job>)
    ensures forall id :: id in Fold(rows) ==> Fold(rows)[id].messageId == id
  {
  }

  lemma ConcatSnoc(a: seq<Job>, b: seq<Job>)
    requires b != []
    ensures a + b == (a + b[..|b| - 1]) + [b[|b| - 1]]
  {
  }

  lemma UpdateJoined(m: JobMap, m': JobMap, j: Job)
    ensures (m + m')[j.messageId := j] == m + m'[j.messageId := j]
  {
  }

  lemma {:induction false} FoldConcat(a: seq<Job>, b: seq<Job>)
    ensures Fold(a + b) == Fold(a) + Fold(b)
  {
    if b == [] {
      assert a + b == a;
    } else {
      var n := |b| - 1;
      FoldConcat(a, b[..n]);
      ConcatSnoc(a, b);
      FoldAppend(a + b[..n], b[n]);
      UpdateJoined(Fold(a), Fold(b[..n]), b[n]);
    }
  }

  // --- Listings ---

  // s holds every job of m once, in some order.
  ghost predicate Enumerates(s: seq<Job>, m: JobMap) {
    (forall i, j :: 0 <= i < j < |s| ==> s[i].messageId != s[j].messageId)
    && (forall i :: 0 <= i < |s| ==> s[i].messageId in m && m[s[i].messageId] == s[i])
    && (forall id :: id in m ==> m[id] in s)
  }

  ghost predicate SortedByCreation(s: seq<Job>) {
    forall i, j :: 0 <= i < j < |s| ==> s[i].createdAt <= s[j].createdAt
  }

  // What list_pending returns; jobs created in the same second come in any order.
  ghost predicate IsPendingList(s: seq<Job>, live: JobMap) {
    Enumerates(s, live) && SortedByCreation(s)
  }

  // Writing a listing of m as a log and folding it gives m back.
  lemma {:induction false} FoldOfEnumeration(s: seq<Job>, m: JobMap)
    requires Enumerates(s, m)
    requires forall id :: id in m ==> m[id].messageId == id
    ensures Fold(s) == m
  {
    forall id ensures id in Fold(s) <==> id in m
              ensures id in m ==> id in Fold(s) && Fold(s)[id] == m[id]
    {
      LastWriteWins(s, id);
      if id in m {
        var i :| 0 <= i < |s| && s[i] == m[id];
        assert IsLastWrite(s, id, i);
      }
    }
  }

  // --- Operations on the log ---

  function Tombstone(j: Job): Job {
    j.(done := true)
  }

  function MarkDoneRows(rows: seq<Job>, id: string): seq<Job> {
    if id in Fold(rows) then rows + [Tombstone(Fold(rows)[id])] else rows
  }

  function DoneIds(m: JobMap): set<string> {
    set id | id in m && m[id].done
  }

  // compact_if_needed's test: at least half of the distinct ids are finished.
  predicate NeedsCompaction(rows: seq<Job>) {
    var m := Fold(rows);
    |m| != 0 && !(|DoneIds(m)| as real / |m| as real < 0.5)
  }

  // One compaction pass. The live rows land in the order a hash map yields them.
  ghost predicate CompactStep(rows: seq<Job>, rows': seq<Job>) {
    if NeedsCompaction(rows) then Enumerates(rows', Live(rows)) else rows' == rows
  }

  datatype QueueOp =
    | Enqueue(job: Job)
    | Update(job: Job)
    | MarkDone(id: string)
    | MoveToDlq(job: Job)
    | Compact
    | Reopen

  ghost predicate OpStep(rows: seq<Job>, op: QueueOp, rows': seq<Job>) {
    match op
    case Enqueue(job) => rows' == rows + [job]
    case Update(job) => rows' == rows + [job]
    case MarkDone(id) => rows' == MarkDoneRows(rows, id)
    case MoveToDlq(job) => rows' == rows + [Tombstone(job)]
    case Compact => CompactStep(rows, rows')
    case Reopen => rows' == rows
  }

  // The same operation on the abstract state.
  function Put(live: JobMap, job: Job): JobMap {
    if job.done then live - {job.messageId} else live[job.messageId := job]
  }

  function AbstractOp(live: JobMap, op: QueueOp): JobMap {
    match op
    case Enqueue(job) => Put(live, job)
    case Update(job) => Put(live, job)
    case MarkDone(id) => live - {id}
    case MoveToDlq(job) => live - {job.messageId}
    case Compact => live
    case Reopen => live
  }

  lemma LiveAppend(rows: seq<Job>, j: Job)
    ensures Live(rows + [j]) == Put(Live(rows), j)
  {
    FoldAppend(rows, j);
  }

  lemma LiveMarkDone(rows: seq<Job>, id: string)
    ensures Live(MarkDoneRows(rows, id)) == Live(rows) - {id}
  {
    FoldKeyed(rows);
    if id in Fold(rows) {
      LiveAppend(rows, Tombstone(Fold(rows)[id]));
    }
  }

  // Compaction drops exactly the finished ids and never a live one.
  lemma CompactFold(rows: seq<Job>, rows': seq<Job>)
    requires CompactStep(rows, rows')
    ensures Live(rows') == Live(rows)
    ensures Fold(rows') == if NeedsCompaction(rows) then Live(rows) else Fold(rows)
  {
    FoldKeyed(rows);
    if NeedsCompaction(rows) {
      FoldOfEnumeration(rows', Live(rows));
    }
  }

  lemma OpRefines(rows: seq<Job>, op: QueueOp, rows': seq<Job>)
    requires OpStep(rows, op, rows')
    ensures Live(rows') == AbstractOp(Live(rows), op)
  {
    match op
    case Enqueue(job) => LiveAppend(rows, job);
    case Update(job) => LiveAppend(rows, job);
    case MarkDone(id) => LiveMarkDone(rows, id);
    case MoveToDlq(job) => LiveAppend(rows, Tombstone(job));
    case Compact => CompactFold(rows, rows');
    case Reopen =>
  }

  // --- Whole runs ---

  // logs[i + 1] is a log that ops[i] may leave when it starts from logs[i].
  ghost predicate IsRun(logs: seq<seq<Job>>, ops: seq<QueueOp>) {
    |logs| == |ops| + 1 && forall i :: 0 <= i < |ops| ==> OpStep(logs[i], ops[i], logs[i + 1])
  }

  function AbstractRun(live: JobMap, ops: seq<QueueOp>): JobMap {
    if ops == [] then live
    else AbstractOp(AbstractRun(live, ops[..|ops| - 1]), ops[|ops| - 1])
  }

  // Log refinement: at every point of any run, what the log folds to is what the
  // abstract operations make of the first live map.
  lemma {:induction false} LogRefinesMap(logs: seq<seq<Job>>, ops: seq<QueueOp>, i: nat)
    requires IsRun(logs, ops) && i <= |ops|
    ensures Live(logs[i]) == AbstractRun(Live(logs[0]), ops[..i])
  {
    if i > 0 {
      LogRefinesMap(logs, ops, i - 1);
      assert ops[..i][..i - 1] == ops[..i - 1];
      OpRefines(logs[i - 1], ops[i - 1], logs[i]);
    }
  }

  // Compaction is unobservable: run the same operations from a log and from its
  // compacted form, and no listing differs at any point, whatever order either
  // compaction wrote and however often the two runs compact on the way.
  lemma CompactionUnobservable(
    rows: seq<Job>, compacted: seq<Job>,
    logs: seq<seq<Job>>, logs': seq<seq<Job>>, ops: seq<QueueOp>, i: nat)
    requires CompactStep(rows, compacted)
    requires IsRun(logs, ops) && logs[0] == rows
    requires IsRun(logs', ops) && logs'[0] == compacted
    requires i <= |ops|
    ensures Live(logs[i]) == Live(logs'[i])
  {
    CompactFold(rows, compacted);
    LogRefinesMap(logs, ops, i);
    LogRefinesMap(logs', ops, i);
  }

  // The ratio test in whole numbers.
  lemma NeedsCompactionWhen(rows: seq<Job>)
    ensures NeedsCompaction(rows) <==> Fold(rows) != map[] && 2 * |DoneIds(Fold(rows))| >= |Fold(rows)|
  {
    var m := Fold(rows);
    if m != map[] {
      RatioTest(|DoneIds(m)|, |m|);
    }
  }

  lemma RatioTest(part: nat, whole: nat)
    requires whole > 0
    ensures part as real / whole as real < 0.5 <==> 2 * part < whole
  {
    var w := whole as real;
    DivMul(part as real, w);
    ScaleLess(part as real / w, 0.5, w);
    assert part as real < 0.5 * w <==> 2.0 * part as real < w;
  }

  lemma DivMul(x: real, y: real)
    requires y > 0.0
    ensures x / y * y == x
  {
  }

  lemma ScaleLess(a: real, b: real, y: real)
    requires y > 0.0
    ensures a < b <==> a * y < b * y
  {
    if a < b {
      assert (b - a) * y > 0.0;
    } else {
      assert (a - b) * y >= 0.0;
    }
  }

  lemma AllDone(m: JobMap)
    requires LiveOf(m) == map[]
    ensures DoneIds(m) == m.Keys && |DoneIds(m)| == |m|
  {
    assert forall id :: id in m && !m[id].done ==> id in LiveOf(m);
    assert DoneIds(m) == m.Keys;
  }

  // After the compaction of an idle tick nothing is left, tombstones included.
  lemma IdleCompactionEmpties(rows: seq<Job>, rows': seq<Job>)
    requires Live(rows) == map[] && CompactStep(rows, rows')
    ensures Fold(rows') == map[]
  {
    NeedsCompactionWhen(rows);
    AllDone(Fold(rows));
    CompactFold(rows, rows');
  }

  // A snapshot row is still the latest one exactly when no later row carries its
  // id, unless the last that does is the same row again.
  lemma SnapshotStillLatest(rows: seq<Job>, later: seq<Job>, id: string)
    requires id in Fold(rows)
    ensures id in Fold(rows + later)
    ensures Fold(rows + later)[id] == Fold(rows)[id]
       <==> (id !in Fold(later) || Fold(later)[id] == Fold(rows)[id])
  {
    FoldConcat(rows, later);
  }
}
