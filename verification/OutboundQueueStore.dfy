// OutboundQueue of src/outbound_queue.rs: the two files of one instance and the
// operations that append to, read and rewrite them.
module OutboundQueueStore {
  import opened Wrappers
  import opened Utf8
  import opened QueueLog
  import opened QueueFile

  // Reading failed on a line that is not UTF-8; writing failed, or the process died
  // while it wrote.
  datatype QueueError = InvalidData | WriteFailed

  // How far a write gets: all the way, or n bytes before it fails.
  datatype Io = Good | FailsAt(n: nat)

  function Reaching(bytes: seq<Byte>, io: Io): (b: seq<Byte>)
    ensures b <= bytes && |b| == (if io.FailsAt? && io.n < |bytes| then io.n else |bytes|)
    ensures (io.Good? ==> b == bytes) && (io == FailsAt(0) ==> b == [])
  {
    if io.FailsAt? && io.n < |bytes| then bytes[..io.n] else bytes
  }

  // --- Listing a map ---

  // into_values().filter(|j| !j.done).collect()
  method LiveValues(m: JobMap) returns (s: seq<Job>)
    requires forall id :: id in m ==> m[id].messageId == id
    ensures Enumerates(s, LiveOf(m))
  {
    s := [];
    var todo := m.Keys;
    while todo != {}
      invariant todo <= m.Keys
      invariant Enumerates(s, map id | id in m && id !in todo && !m[id].done :: m[id])
      decreases todo
    {
      var id :| id in todo;
      ghost var seen := map k | k in m && k !in todo && !m[k].done :: m[k];
      ghost var s0 := s;
      todo := todo - {id};
      ghost var seen' := map k | k in m && k !in todo && !m[k].done :: m[k];
      if !m[id].done {
        s := s + [m[id]];
        assert seen' == seen[id := m[id]];
        EnumerateOneMore(s0, seen, m[id]);
      } else {
        assert seen' == seen;
      }
    }
    assert LiveOf(m) == map id | id in m && id !in todo && !m[id].done :: m[id];
  }

  lemma EnumerateOneMore(s: seq<Job>, m: JobMap, j: Job)
    requires Enumerates(s, m) && j.messageId !in m
    ensures Enumerates(s + [j], m[j.messageId := j])
  {
    var t := s + [j];
    assert t[|s|] == j;
    assert forall x :: x in s ==> x in t;
  }

  // sort_by_key(|j| j.created_at): each job goes behind the older ones.
  method SortByCreatedAt(s: seq<Job>) returns (t: seq<Job>)
    ensures SortedByCreation(t) && multiset(t) == multiset(s)
  {
    t := [];
    for i := 0 to |s|
      invariant SortedByCreation(t) && multiset(t) == multiset(s[..i])
    {
      t := InsertByCreatedAt(t, s[i]);
      assert s[..i + 1] == s[..i] + [s[i]];
    }
    assert s[..|s|] == s;
  }

  method InsertByCreatedAt(t: seq<Job>, j: Job) returns (u: seq<Job>)
    requires SortedByCreation(t)
    ensures SortedByCreation(u) && multiset(u) == multiset(t) + multiset{j}
  {
    var k := |t|;
    while k > 0 && j.createdAt < t[k - 1].createdAt
      invariant 0 <= k <= |t|
      invariant forall x :: k <= x < |t| ==> j.createdAt <= t[x].createdAt
    {
      k := k - 1;
    }
    u := t[..k] + [j] + t[k..];
    InsertCount(t, j, k);
  }

  lemma InsertCount(t: seq<Job>, j: Job, k: nat)
    requires k <= |t|
    ensures multiset(t[..k] + [j] + t[k..]) == multiset(t) + multiset{j}
  {
    assert t == t[..k] + t[k..];
  }

  // Reordering a listing leaves it a listing.
  lemma PermutedListing(s: seq<Job>, t: seq<Job>, m: JobMap)
    requires Enumerates(s, m) && multiset(t) == multiset(s)
    ensures Enumerates(t, m)
  {
    assert forall x :: x in t <==> x in multiset(t);
    assert forall x :: x in s <==> x in multiset(s);
    forall i, j | 0 <= i < j < |t| ensures t[i].messageId != t[j].messageId {
      if t[i].messageId == t[j].messageId {
        assert t[i] in s && t[j] in s;
        assert t[i] == t[j];
        TwiceInSeq(t, i, j);
        OnceInSeq(s, t[i]);
      }
    }
    forall i | 0 <= i < |t| ensures t[i].messageId in m && m[t[i].messageId] == t[i] {
      assert t[i] in s;
    }
    forall id | id in m ensures m[id] in t {
      assert m[id] in s;
    }
  }

  lemma TwiceInSeq(t: seq<Job>, i: nat, j: nat)
    requires i < j < |t| && t[i] == t[j]
    ensures multiset(t)[t[i]] >= 2
  {
    assert t == t[..j] + [t[j]] + t[j + 1..];
    assert t[..j][i] == t[i];
  }

  lemma {:induction false} OnceInSeq(s: seq<Job>, x: Job)
    requires forall i, j :: 0 <= i < j < |s| ==> s[i].messageId != s[j].messageId
    ensures multiset(s)[x] <= 1
  {
    if s != [] {
      var n := |s| - 1;
      assert s == s[..n] + [s[n]];
      OnceInSeq(s[..n], x);
      if s[n] == x {
        assert forall i :: 0 <= i < n ==> s[..n][i] == s[i];
        assert x !in s[..n];
      }
    }
  }

  lemma NonBlankOne(line: seq<Byte>)
    ensures NonBlank([line])
         == if !ValidUtf8(line) then None else Some(if IsBlankLine(line) then [] else [line])
  {
    var one := [line];
    assert one[1..] == [];
    assert [line] + [] == [line];
  }

  lemma NonBlankMore(before: seq<seq<Byte>>, line: seq<Byte>)
    requires NonBlank(before).Some?
    ensures NonBlank(before + [line])
         == if !ValidUtf8(line) then None
            else Some(NonBlank(before).value + if IsBlankLine(line) then [] else [line])
  {
    NonBlankOne(line);
    NonBlankConcat(before, [line]);
  }

  // Line by line, one line more.
  lemma ReadOneMore(lines: seq<seq<Byte>>, i: nat)
    requires i < |lines| && NonBlank(lines[..i]).Some?
    ensures !ValidUtf8(lines[i]) ==> NonBlank(lines).None?
    ensures ValidUtf8(lines[i]) ==>
      NonBlank(lines[..i + 1])
      == Some(NonBlank(lines[..i]).value + if IsBlankLine(lines[i]) then [] else [lines[i]])
  {
    Cut(lines, i);
    NonBlankMore(lines[..i], lines[i]);
    if !ValidUtf8(lines[i]) {
      NonBlankConcat(lines[..i + 1], lines[i + 1..]);
    }
  }

  lemma Cut(lines: seq<seq<Byte>>, i: nat)
    requires i < |lines|
    ensures lines[..i + 1] == lines[..i] + [lines[i]] && lines == lines[..i + 1] + lines[i + 1..]
  {
  }

  // The last max lines of a file that holds more.
  function LastLines(lines: seq<seq<Byte>>, max: nat): seq<seq<Byte>> {
    if |lines| <= max then lines else lines[|lines| - max..]
  }

  lemma {:induction false} JoinAppend(lines: seq<seq<Byte>>, line: seq<Byte>)
    ensures JoinLines(lines + [line]) == JoinLines(lines) + line + [NL]
  {
    if lines != [] {
      JoinAppend(lines[1..], line);
      assert (lines + [line])[1..] == lines[1..] + [line];
    }
  }

  // What trimming a DLQ file comes to: it cannot be read, it is short enough, or the
  // lines dropped and the file of the others.
  datatype TrimPlan = Unreadable | Nothing | Tail(dropped: nat, tail: seq<Byte>)

  function TrimOf(file: seq<Byte>, max: nat): TrimPlan {
    if max == 0 then Nothing
    else
      match NonBlank(SplitLines(file))
      case None => Unreadable
      case Some(lines) =>
        if |lines| <= max then Nothing else Tail(|lines| - max, JoinLines(LastLines(lines, max)))
  }

  // Of the lines that are not blank the newest max are left, in their order; a cap of 0 is
  // none, and a line that is not UTF-8 is an error.
  lemma TrimExactly(file: seq<Byte>, max: nat)
    ensures max == 0 ==> TrimOf(file, max) == Nothing
    ensures max > 0 ==>
      match NonBlank(SplitLines(file))
      case None => TrimOf(file, max) == Unreadable
      case Some(lines) =>
        TrimOf(file, max)
        == if |lines| > max then Tail(|lines| - max, JoinLines(lines[|lines| - max..])) else Nothing
  {
  }

  // Line after line into a new file.
  method WriteLines(lines: seq<seq<Byte>>) returns (out: seq<Byte>)
    ensures out == JoinLines(lines)
  {
    out := [];
    for i := 0 to |lines|
      invariant out == JoinLines(lines[..i])
    {
      assert lines[..i + 1] == lines[..i] + [lines[i]];
      JoinAppend(lines[..i], lines[i]);
      out := out + lines[i] + [NL];
    }
    assert lines[..|lines|] == lines;
  }

  class OutboundQueue {
    const codec: Codec
    var queueFile: seq<Byte>
    var dlqFile: seq<Byte>
    // The sibling files a compaction and a trim write before they rename them.
    var queueTmp: Option<seq<Byte>>
    var dlqTmp: Option<seq<Byte>>

    ghost function Rows(): Option<seq<Job>>
      reads this`queueFile
    {
      ReadRows(codec, queueFile)
    }

    ghost function DlqRows(): Option<seq<Job>>
      reads this`dlqFile
    {
      ReadRows(codec, dlqFile)
    }

    // Both files end in whole lines and can be read.
    ghost predicate Healthy()
      reads this`queueFile, this`dlqFile
    {
      codec.Lawful()
      && Terminated(queueFile) && Rows().Some?
      && Terminated(dlqFile) && DlqRows().Some?
    }

    constructor (codec: Codec, queue: seq<Byte>, dlq: seq<Byte>)
      ensures this.codec == codec && queueFile == queue && dlqFile == dlq && queueTmp.None? && dlqTmp.None?
    {
      this.codec, queueFile, dlqFile := codec, queue, dlq;
      queueTmp, dlqTmp := None, None;
    }

    // open: files that are missing are created empty, others are kept as they are.
    // created: whether creating works.
    static method Open(codec: Codec, queue: Option<seq<Byte>>, dlq: Option<seq<Byte>>, created: bool)
      returns (r: Result<OutboundQueue, QueueError>)
      ensures r.Err? <==> !created && (queue.None? || dlq.None?)
      ensures r.Ok? ==>
        fresh(r.value) && r.value.codec == codec
        && r.value.queueFile == (match queue case None => [] case Some(f) => f)
        && r.value.dlqFile == (match dlq case None => [] case Some(f) => f)
    {
      if !created && (queue.None? || dlq.None?) {
        return Err(WriteFailed);
      }
      var q := new OutboundQueue(codec, match queue case None => [] case Some(f) => f,
                                 match dlq case None => [] case Some(f) => f);
      return Ok(q);
    }

    // append_line on the queue file.
    method Enqueue(job: Job, io: Io) returns (r: Result<(), QueueError>)
      modifies this`queueFile
      ensures r == if io.Good? then Ok(()) else Err(WriteFailed)
      ensures queueFile == old(queueFile) + Reaching(codec.encode(job) + [10], io)
      ensures old(Healthy()) && r.Ok? ==> Healthy() && Rows().value == old(Rows().value) + [job]
    {
      queueFile := queueFile + Reaching(Line(codec, job), io);
      if old(Healthy()) {
        ReadAppend(codec, old(queueFile), job);
      }
      return if io.Good? then Ok(()) else Err(WriteFailed);
    }

    // The previous row is left in place; the new one wins.
    method Update(job: Job, io: Io) returns (r: Result<(), QueueError>)
      modifies this`queueFile
      ensures r == if io.Good? then Ok(()) else Err(WriteFailed)
      ensures queueFile == old(queueFile) + Reaching(Line(codec, job), io)
      ensures old(Healthy()) && r.Ok? ==> Healthy() && Rows().value == old(Rows().value) + [job]
    {
      r := Enqueue(job, io);
    }

    method ReadLatestPerId() returns (latest: Option<JobMap>)
      ensures latest == match Rows() case None => None case Some(rows) => Some(Fold(rows))
    {
      var lines := SplitLines(queueFile);
      var out: JobMap := map[];
      var i := 0;
      while i < |lines|
        invariant i <= |lines|
        invariant NonBlank(lines[..i]).Some?
        invariant out == Fold(ParseAll(codec, NonBlank(lines[..i]).value))
      {
        ReadOneMore(lines, i);
        if !ValidUtf8(lines[i]) {
          return None;
        }
        ghost var before := NonBlank(lines[..i]).value;
        if !IsBlankLine(lines[i]) {
          ghost var one := [lines[i]];
          ParseAllConcat(codec, before, one);
          assert one[1..] == [];
          match codec.parse(lines[i]) {
            case None =>
              assert ParseAll(codec, before) + ParseAll(codec, one) == ParseAll(codec, before);
            case Some(j) =>
              assert ParseAll(codec, one) == [j];
              FoldAppend(ParseAll(codec, before), j);
              out := out[j.messageId := j];
          }
        } else {
          assert before + [] == before;
        }
        i := i + 1;
      }
      assert lines[..i] == lines;
      return Some(out);
    }

    method MarkDone(id: string, io: Io) returns (r: Result<(), QueueError>)
      modifies this`queueFile
      ensures old(Rows()).None? ==> r == Err(InvalidData) && queueFile == old(queueFile)
      ensures old(Rows()).Some? ==>
        var latest := Fold(old(Rows()).value);
        r == (if id !in latest || io.Good? then Ok(()) else Err(WriteFailed))
        && queueFile == old(queueFile)
           + (if id in latest then Reaching(codec.encode(latest[id].(done := true)) + [10], io) else [])
      ensures old(Healthy()) && r.Ok? ==> Healthy() && Rows().value == MarkDoneRows(old(Rows().value), id)
    {
      var read := ReadLatestPerId();
      if read.None? {
        return Err(InvalidData);
      }
      var latest := read.value;
      if id in latest {
        var tomb := Tombstone(latest[id]);
        r := Enqueue(tomb, io);
        return;
      }
      assert queueFile == old(queueFile) + [];
      return Ok(());
    }

    // The tombstone goes first, so that a crash between the two appends never
    // leaves a job both live and in the DLQ.
    method MoveToDlq(job: Job, queueIo: Io, dlqIo: Io) returns (r: Result<(), QueueError>)
      modifies this`queueFile, this`dlqFile
      ensures r == if queueIo.Good? && dlqIo.Good? then Ok(()) else Err(WriteFailed)
      ensures queueFile == old(queueFile) + Reaching(codec.encode(job.(done := true)) + [10], queueIo)
      ensures dlqFile == old(dlqFile) + if queueIo.Good? then Reaching(codec.encode(job) + [10], dlqIo) else []
      ensures old(Healthy()) && queueIo.Good? ==> Rows() == Some(old(Rows().value) + [Tombstone(job)])
      ensures old(Healthy()) && queueIo.Good? && (dlqIo.Good? || dlqIo == FailsAt(0)) ==>
        Healthy() && DlqRows().value == old(DlqRows().value) + if dlqIo.Good? then [job] else []
    {
      var tombstoned := Enqueue(Tombstone(job), queueIo);
      if tombstoned.Err? {
        assert dlqFile == old(dlqFile) + [];
        return tombstoned;
      }
      dlqFile := dlqFile + Reaching(Line(codec, job), dlqIo);
      if old(Healthy()) {
        assert Rows() == Some(old(Rows().value) + [Tombstone(job)]);
        ReadAppend(codec, old(dlqFile), job);
        assert old(dlqFile) + [] == old(dlqFile);
        assert old(DlqRows().value) + [] == old(DlqRows().value);
      }
      return if dlqIo.Good? then Ok(()) else Err(WriteFailed);
    }

    method NonBlankDlqLines() returns (all: Option<seq<seq<Byte>>>)
      ensures all == NonBlank(SplitLines(dlqFile))
    {
      var lines := SplitLines(dlqFile);
      var out: seq<seq<Byte>> := [];
      var i := 0;
      while i < |lines|
        invariant i <= |lines|
        invariant NonBlank(lines[..i]) == Some(out)
      {
        ReadOneMore(lines, i);
        if !ValidUtf8(lines[i]) {
          return None;
        }
        if !IsBlankLine(lines[i]) {
          out := out + [lines[i]];
        } else {
          assert out + [] == out;
        }
        i := i + 1;
      }
      assert lines[..i] == lines;
      return Some(out);
    }

    // Keeps the most recent max lines; max == 0 switches the cap off. io: how far the
    // new file gets before the rename.
    method TrimDlq(max: nat, io: Io) returns (r: Result<nat, QueueError>)
      modifies this`dlqFile, this`dlqTmp
      ensures match TrimOf(old(dlqFile), max)
        case Unreadable => r == Err(InvalidData) && unchanged(this`dlqFile, this`dlqTmp)
        case Nothing => r == Ok(0) && unchanged(this`dlqFile, this`dlqTmp)
        case Tail(dropped, tail) =>
          if io.Good? then r == Ok(dropped) && dlqFile == tail && dlqTmp == None
          else r == Err(WriteFailed) && dlqFile == old(dlqFile) && dlqTmp == Some(Reaching(tail, io))
    {
      if max == 0 {
        return Ok(0);
      }
      var read := NonBlankDlqLines();
      if read.None? {
        return Err(InvalidData);
      }
      var all := read.value;
      if |all| <= max {
        return Ok(0);
      }
      var dropped := |all| - max;
      var out := WriteLines(all[dropped..]);
      if io.FailsAt? {
        dlqTmp := Some(Reaching(out, io));
        return Err(WriteFailed);
      }
      dlqFile, dlqTmp := out, None;
      return Ok(dropped);
    }

    // Every live job once, oldest first.
    method ListPending() returns (r: Result<seq<Job>, QueueError>)
      ensures Rows().None? ==> r == Err(InvalidData)
      ensures Rows().Some? ==> r.Ok? && IsPendingList(r.value, Live(Rows().value))
    {
      var latest := ReadLatestPerId();
      if latest.None? {
        return Err(InvalidData);
      }
      FoldKeyed(Rows().value);
      var out := LiveValues(latest.value);
      var sorted := SortByCreatedAt(out);
      PermutedListing(out, sorted, LiveOf(latest.value));
      return Ok(sorted);
    }

    // Rewrites the queue without its finished ids once they are half of all ids.
    // io: how far the new file gets before the rename.
    method CompactIfNeeded(io: Io) returns (r: Result<bool, QueueError>)
      modifies this`queueFile, this`queueTmp
      ensures r == Ok(true) || queueFile == old(queueFile)
      ensures r == Ok(false) || r == Err(InvalidData) ==> queueTmp == old(queueTmp)
      ensures old(Rows()).None? ==> r == Err(InvalidData)
      ensures old(Rows()).Some? && !NeedsCompaction(old(Rows()).value) ==> r == Ok(false)
      ensures old(Rows()).Some? && NeedsCompaction(old(Rows()).value) ==>
        exists live :: Enumerates(live, Live(old(Rows()).value))
          && (if io.FailsAt? then r == Err(WriteFailed) && queueTmp == Some(Reaching(EncodeAll(codec, live), io))
              else r == Ok(true) && queueTmp.None? && queueFile == EncodeAll(codec, live))
      ensures old(Healthy()) ==>
        Healthy() && (r.Ok? ==> CompactStep(old(Rows().value), Rows().value))
    {
      var read := ReadLatestPerId();
      if read.None? {
        return Err(InvalidData);
      }
      var latest := read.value;
      var total := |latest|;
      if total == 0 {
        return Ok(false);
      }
      var finished := |DoneIds(latest)|;
      var ratio := finished as real / total as real;
      if ratio < 0.5 {
        return Ok(false);
      }
      FoldKeyed(Rows().value);
      var live := LiveValues(latest);
      assert Enumerates(live, Live(old(Rows()).value));
      r := Rewrite(live, io);
    }

    // A sibling file and a rename.
    method Rewrite(live: seq<Job>, io: Io) returns (r: Result<bool, QueueError>)
      modifies this`queueFile, this`queueTmp
      ensures if io.FailsAt?
              then r == Err(WriteFailed) && queueTmp == Some(Reaching(EncodeAll(codec, live), io))
                   && queueFile == old(queueFile)
              else r == Ok(true) && queueTmp.None? && queueFile == EncodeAll(codec, live)
      ensures codec.Lawful() && r.Ok? ==> Terminated(queueFile) && Rows() == Some(live)
    {
      var bytes := EncodeAll(codec, live);
      if io.FailsAt? {
        queueTmp := Some(Reaching(bytes, io));
        return Err(WriteFailed);
      }
      queueFile, queueTmp := bytes, None;
      if codec.Lawful() {
        ReadEncodeAll(codec, live);
      }
      return Ok(true);
    }
  }

  // list_pending takes no lock, so it may read while n bytes of an append are in the
  // file. Then it fails, or it sees the rows before the append or those after it: a
  // listing always stands for one moment between appends.
  lemma ListingDuringAppend(c: Codec, f: seq<Byte>, rows: seq<Job>, j: Job, n: nat)
    requires c.Lawful() && Terminated(f) && ReadRows(c, f) == Some(rows) && n <= |Line(c, j)|
    ensures ReadRows(c, f + Line(c, j)[..n])
         == if n >= |c.encode(j)| then Some(rows + [j])
            else if IsCharBoundary(c.encode(j), n) then Some(rows)
            else None
  {
    assert c.RowLawful(j);
    OneAppend(c, j, n);
    TornAppends(c, f, rows, [Append(j, n)]);
    assert rows + [] == rows;
  }

  lemma OneAppend(c: Codec, j: Job, n: nat)
    requires n <= |Line(c, j)|
    ensures AllFit(c, [Append(j, n)]) && Written(c, [Append(j, n)]) == Line(c, j)[..n]
    ensures ReadBack(c, [Append(j, n)], Fresh) == if n >= |c.encode(j)| && n > 0 then [j] else []
    ensures AtBoundaries(c, [Append(j, n)]) <==> (n <= |c.encode(j)| ==> IsCharBoundary(c.encode(j), n))
  {
    var one := [Append(j, n)];
    assert one[1..] == [];
    assert Line(c, j)[..n] + [] == Line(c, j)[..n];
    AtBoundariesCons(c, one);
    assert [j] + ReadBack(c, [], Fresh) == [j];
  }

  // Trimming a DLQ that holds whole rows keeps the newest of them.
  lemma TrimKeepsNewest(c: Codec, js: seq<Job>, max: nat)
    requires c.Lawful() && 0 < max < |js|
    ensures NonBlank(SplitLines(EncodeAll(c, js))).Some?
    ensures var lines := NonBlank(SplitLines(EncodeAll(c, js))).value;
      |lines| == |js| && JoinLines(LastLines(lines, max)) == EncodeAll(c, js[|js| - max..])
  {
    EncodedLines(c, js);
    LastEncoded(c, NonBlank(SplitLines(EncodeAll(c, js))).value, js, max);
  }

  lemma LastEncoded(c: Codec, lines: seq<seq<Byte>>, js: seq<Job>, max: nat)
    requires |lines| == |js| && (forall i :: 0 <= i < |js| ==> lines[i] == c.encode(js[i])) && max < |js|
    ensures JoinLines(LastLines(lines, max)) == EncodeAll(c, js[|js| - max..])
  {
    var k := |js| - max;
    assert forall i :: 0 <= i < max ==> lines[k..][i] == c.encode(js[k..][i]);
    JoinEncoded(c, lines[k..], js[k..]);
  }

  lemma {:induction false} EncodedLines(c: Codec, js: seq<Job>)
    requires c.Lawful()
    ensures Terminated(EncodeAll(c, js))
    ensures var lines := NonBlank(SplitLines(EncodeAll(c, js)));
      lines.Some? && |lines.value| == |js| && forall i :: 0 <= i < |js| ==> lines.value[i] == c.encode(js[i])
  {
    ReadEncodeAll(c, js);
    if js != [] {
      EncodedLines(c, js[1..]);
      assert c.RowLawful(js[0]);
      OneMoreLine(c, js[0], EncodeAll(c, js[1..]));
    }
  }

  lemma OneMoreLine(c: Codec, j: Job, rest: seq<Byte>)
    requires c.RowLawful(j)
    ensures NonBlank(SplitLines(Line(c, j) + rest))
         == match NonBlank(SplitLines(rest)) case None => None case Some(lines) => Some([c.encode(j)] + lines)
  {
    var line := c.encode(j);
    SplitUnfold(Line(c, j) + rest, line, rest);
    assert StripCr(line) == line;
    assert !IsBlankLine(line);
    var all := [line] + SplitLines(rest);
    assert all[1..] == SplitLines(rest);
  }

  lemma {:induction false} JoinEncoded(c: Codec, lines: seq<seq<Byte>>, js: seq<Job>)
    requires |lines| == |js| && forall i :: 0 <= i < |js| ==> lines[i] == c.encode(js[i])
    ensures JoinLines(lines) == EncodeAll(c, js)
  {
    if js != [] {
      JoinEncoded(c, lines[1..], js[1..]);
    }
  }
}
