// The outbound worker over a queue file whose last line may be torn: an append that is
// cut short, by a crash or by an error, leaves part of a row behind, or a row without
// its newline, and the next row is glued onto it. What conservation becomes when rows
// are swallowed like this.
module TornRuns {
  import opened Wrappers
  import opened Utf8
  import opened QueueLog
  import opened QueueFile
  import opened Dispatcher
  import opened DispatcherRuns

  // jobs: ids whose only row was swallowed. settled: ids of which the row of an outcome
  // was. ends: those that are live although they were sent or given up. rescued: ids the
  // tick was still holding when their only row went, and which it settled all the same.
  // acks: ids whose last ack a fault kept from being published.
  datatype Losses = Losses(
    jobs: seq<string>, settled: seq<string>, ends: seq<string>, rescued: seq<string>, acks: seq<string>)

  // base: what the last compaction wrote. writes: the appends since. last: what they
  // leave on the last line. stray: a row the tick holds that is not in the log any more.
  // tears: appends that did not end their line; bare: those that lack nothing else.
  datatype TornState = TornState(
    s: State, base: seq<Job>, writes: seq<Append>, last: LastLine, stray: Option<Job>,
    tears: nat, bare: nat, losses: Losses)

  // An append of the machine reaches the file whole, or with n bytes; then the process
  // dies or the append returns an error.
  datatype Step = Whole(e: Event) | Tear(e: Event, n: nat, dies: bool)

  // --- Appends ---

  // mark_done writes nothing for an id the log does not know.
  predicate Writes(s: State, e: Event) {
    e.Accept?
    || (e.Settle? && s.phase.Deciding?
        && (s.phase.job.messageId in Fold(s.rows) || !Decide(s.phase.job, s.phase.reply, e.retryAt).Finish?))
  }

  function RowOf(s: State, e: Event): Job
    requires Writes(s, e)
  {
    match e
    case Accept(job) => job
    case Settle(retryAt) =>
      match Decide(s.phase.job, s.phase.reply, retryAt)
      case Finish => Tombstone(Fold(s.rows)[s.phase.job.messageId])
      case GiveUp(_) => Tombstone(s.phase.job)
      case Retry(updated, _) => updated
  }

  // The rows that stand on ended lines.
  function Below(rows: seq<Job>, last: LastLine): seq<Job> {
    if last.Complete? && rows != [] then rows[..|rows| - 1] else rows
  }

  function One(b: bool): nat {
    if b then 1 else 0
  }

  function AddIf(ids: seq<string>, id: string, b: bool): seq<string> {
    if b then ids + [id] else ids
  }

  // What it costs when a row that only lacked its newline is glued to the next one.
  function Vanish(below: seq<Job>, k: Job, l: Losses): Losses {
    var id, live := k.messageId, k.messageId in Live(below);
    l.(jobs := AddIf(l.jobs, id, !live && !k.done),
       settled := AddIf(l.settled, id, live),
       ends := AddIf(l.ends, id, live && k.done))
  }

  // A reader no longer gets it. If the tick holds it, it is a stray from then on.
  function Unread(t: TornState): TornState {
    if !t.last.Complete? then t
    else
      var k, below := t.last.job, Below(t.s.rows, t.last);
      t.(s := t.s.(rows := below), last := Damaged, losses := Vanish(below, k, t.losses),
         stray := if k in Held(t.s.phase) then Some(k) else t.stray)
  }

  predicate Final(s: State, e: Event)
    requires e.Settle? ==> s.phase.Deciding?
  {
    e.Settle? && !Decide(s.phase.job, s.phase.reply, e.retryAt).Retry?
  }

  // The id the event is about.
  function IdOf(s: State, e: Event): string
    requires e.Accept? || (e.Settle? && s.phase.Deciding?)
  {
    if e.Accept? then e.job.messageId else s.phase.job.messageId
  }

  // What it costs when an event takes effect: read says whether a reader gets its row.
  function Charge(s: State, e: Event, l: Losses, read: bool): Losses
    requires e.Accept? || (e.Settle? && s.phase.Deciding?)
  {
    var id, live := IdOf(s, e), IdOf(s, e) in Live(s.rows);
    l.(jobs := AddIf(l.jobs, id, e.Accept? && !read),
       settled := AddIf(l.settled, id, e.Settle? && !read),
       ends := AddIf(l.ends, id, Final(s, e) && live && !read),
       rescued := AddIf(l.rescued, id, e.Settle? && !live && (Final(s, e) || read)))
  }

  function StillHeld(stray: Option<Job>, p: Phase): Option<Job> {
    if stray.Some? && stray.value in Held(p) then stray else None
  }

  // The event takes effect and the log reads as rows.
  ghost function Take(t: TornState, e: Event, rows: seq<Job>, read: bool): TornState
    requires Enabled(t.s, e) && (e.Accept? || e.Settle?)
  {
    var s' := After(t.s, e).(rows := rows);
    t.(s := s', losses := Charge(t.s, e, t.losses, read), stray := StillHeld(t.stray, s'.phase))
  }

  // The terminal ack a fault at this point drops.
  function DroppedBy(p: Phase): seq<string> {
    if p.BetweenAppends? then [p.job.messageId]
    else if p.Acking? && p.ack.status != Retrying then [p.ack.messageId]
    else []
  }

  ghost function Struck(t: TornState, e: Event): TornState
    requires Enabled(t.s, e)
  {
    t.(s := After(t.s, e), stray := None, losses := t.losses.(acks := t.losses.acks + DroppedBy(t.s.phase)))
  }

  // --- Steps ---

  ghost predicate CanStep(c: Codec, t: TornState, step: Step) {
    match step
    case Whole(e) => Enabled(t.s, e)
    // A cut inside a character makes the file unreadable for good: QueueFile.TornAppends.
    case Tear(e, n, _) =>
      Enabled(t.s, e) && Writes(t.s, e)
      && 0 < n <= |c.encode(RowOf(t.s, e))| && IsCharBoundary(c.encode(RowOf(t.s, e)), n)
  }

  ghost function Wrote(c: Codec, t: TornState, e: Event): TornState
    requires Enabled(t.s, e) && Writes(t.s, e)
  {
    var row, u := RowOf(t.s, e), Unread(t);
    var read := u.last.Fresh?;
    Take(u, e, if read then u.s.rows + [row] else u.s.rows, read)
    .(writes := t.writes + [Append(row, |c.encode(row)| + 1)], last := LastLine.Fresh)
  }

  // Only part of the row is there, or the line was torn before: nothing took effect.
  function Cut(c: Codec, t: TornState, row: Job, n: nat): TornState {
    Unread(t).(writes := t.writes + [Append(row, n)], last := Damaged,
               tears := t.tears + 1, bare := if n == |c.encode(row)| then t.bare + 1 else t.bare)
  }

  // All of the row but its newline is there: it is read.
  ghost function Bare(c: Codec, t: TornState, e: Event): TornState
    requires Enabled(t.s, e) && Writes(t.s, e)
  {
    var row := RowOf(t.s, e);
    Take(t, e, t.s.rows + [row], true)
    .(writes := t.writes + [Append(row, |c.encode(row)|)], last := Complete(row),
      tears := t.tears + 1, bare := t.bare + 1)
  }

  // The process dies, or the append returns an error: of an outcome, that ends the tick.
  // total: the count of the health record, which an error leaves as it was.
  ghost function Aborted(t: TornState, e: Event, dies: bool, total: U64): TornState
    requires e.Settle? ==> Enabled(t.s, IoError)
  {
    if dies then Struck(t, Crash)
    else if e.Settle? then
      var t' := Struck(t, IoError);
      t'.(s := t'.s.(sentTotal := total))
    else t
  }

  ghost function Next(c: Codec, t: TornState, step: Step): TornState
    requires CanStep(c, t, step)
  {
    match step
    case Whole(e) =>
      if Writes(t.s, e) then Wrote(c, t, e)
      else if e.Settle? then Take(t, e, t.s.rows, true)
      else if e.IoError? || e.Crash? then Struck(t, e)
      else if e.Compact? && NeedsCompaction(t.s.rows) then
        t.(s := After(t.s, e), base := e.rows, writes := [], last := LastLine.Fresh)
      else t.(s := After(t.s, e), stray := StillHeld(t.stray, After(t.s, e).phase))
    case Tear(e, n, dies) =>
      var row := RowOf(t.s, e);
      if t.last.Fresh? && n == |c.encode(row)| then Aborted(Bare(c, t, e), e, dies, t.s.sentTotal)
      else Aborted(Cut(c, t, row, n), e, dies, t.s.sentTotal)
  }

  // --- The shape of a reachable state ---

  ghost predicate AllRows(rows: seq<Job>, accepted: seq<string>) {
    forall r :: r in rows ==> r.messageId in accepted && (!r.done ==> r.attempts < MAX_ATTEMPTS)
  }

  predicate IsLive(rows: seq<Job>, j: Job) {
    j.messageId in Live(rows) && Live(rows)[j.messageId] == j
  }

  // The rows a tick holds: live ones, and at most one stray.
  ghost predicate HeldOk(held: seq<Job>, rows: seq<Job>, accepted: seq<string>, stray: Option<Job>) {
    (forall i, j :: 0 <= i < j < |held| ==> held[i].messageId != held[j].messageId)
    && (forall j :: j in held ==>
          j.messageId in accepted && !j.done && j.attempts < MAX_ATTEMPTS && (stray == Some(j) || IsLive(rows, j)))
    && (stray.Some? ==> stray.value in held)
  }

  // A row that is read without its newline is the last one, and no stray has its id.
  ghost predicate LastOk(rows: seq<Job>, held: seq<Job>, last: LastLine, stray: Option<Job>) {
    last.Complete? ==>
      rows != [] && rows[|rows| - 1] == last.job && (last.job in held ==> stray.None?)
      && (stray.Some? ==> stray.value.messageId != last.job.messageId)
  }

  ghost predicate Shape(t: TornState) {
    AllRows(t.s.rows, t.s.h.accepted)
    && HeldOk(Held(t.s.phase), t.s.rows, t.s.h.accepted, t.stray)
    && LastOk(t.s.rows, Held(t.s.phase), t.last, t.stray)
  }

  lemma {:induction false} FoldFromRows(rows: seq<Job>)
    ensures forall id :: id in Fold(rows) ==> Fold(rows)[id] in rows && Fold(rows)[id].messageId == id
  {
    if rows != [] {
      FoldFromRows(rows[..|rows| - 1]);
      assert rows == rows[..|rows| - 1] + [rows[|rows| - 1]];
    }
  }

  lemma KnownIds(rows: seq<Job>, accepted: seq<string>)
    requires AllRows(rows, accepted)
    ensures forall id :: id in Fold(rows) ==> id in accepted
    ensures forall id :: id in Live(rows) ==>
      id in accepted && Live(rows)[id] in rows && !Live(rows)[id].done && Live(rows)[id].attempts < MAX_ATTEMPTS
      && Live(rows)[id].messageId == id
  {
    FoldFromRows(rows);
  }

  lemma AllRowsMore(rows: seq<Job>, row: Job, accepted: seq<string>)
    requires AllRows(rows, accepted) && row.messageId in accepted && (!row.done ==> row.attempts < MAX_ATTEMPTS)
    ensures AllRows(rows + [row], accepted)
  {
  }

  // The last row apart.
  lemma LiveBelow(rows: seq<Job>)
    requires rows != []
    ensures Live(rows) == Put(Live(rows[..|rows| - 1]), rows[|rows| - 1])
    ensures rows == rows[..|rows| - 1] + [rows[|rows| - 1]]
  {
    assert rows == rows[..|rows| - 1] + [rows[|rows| - 1]];
    LiveAppend(rows[..|rows| - 1], rows[|rows| - 1]);
  }

  lemma UnreadHeld(rows: seq<Job>, held: seq<Job>, accepted: seq<string>, k: Job, stray: Option<Job>)
    requires rows != [] && rows[|rows| - 1] == k && HeldOk(held, rows, accepted, stray)
    requires LastOk(rows, held, Complete(k), stray)
    ensures HeldOk(held, rows[..|rows| - 1], accepted, if k in held then Some(k) else stray)
  {
    LiveBelow(rows);
    forall j | j in held && j != k && stray != Some(j) ensures IsLive(rows[..|rows| - 1], j) {
      assert IsLive(rows, j);
    }
  }

  lemma UnreadShape(t: TornState)
    requires Shape(t)
    ensures Shape(Unread(t))
  {
    if t.last.Complete? {
      UnreadHeld(t.s.rows, Held(t.s.phase), t.s.h.accepted, t.last.job, t.stray);
      assert forall r :: r in Below(t.s.rows, t.last) ==> r in t.s.rows;
    }
  }

  lemma HeldTail(held: seq<Job>, rows: seq<Job>, accepted: seq<string>, stray: Option<Job>)
    requires HeldOk(held, rows, accepted, stray) && held != []
    ensures HeldOk(held[1..], rows, accepted, if stray.Some? && stray.value in held[1..] then stray else None)
    ensures forall j :: j in held[1..] ==> j in held && j.messageId != held[0].messageId
  {
    forall j | j in held[1..] ensures j in held && j.messageId != held[0].messageId {
      var i :| 0 <= i < |held[1..]| && held[1..][i] == j;
      assert held[i + 1] == j;
    }
  }

  // A row of another id leaves what is held as it was.
  lemma HeldOther(held: seq<Job>, rows: seq<Job>, accepted: seq<string>, stray: Option<Job>, row: Job)
    requires HeldOk(held, rows, accepted, stray) && forall j :: j in held ==> j.messageId != row.messageId
    ensures HeldOk(held, rows + [row], accepted, stray)
  {
    LiveAppend(rows, row);
    forall j | j in held && stray != Some(j) ensures IsLive(rows + [row], j) {
      assert IsLive(rows, j);
    }
  }

  lemma HeldMore(held: seq<Job>, rows: seq<Job>, accepted: seq<string>, id: string, stray: Option<Job>)
    requires HeldOk(held, rows, accepted, stray)
    ensures HeldOk(held, rows, accepted + [id], stray)
  {
  }

  // What taking an event does to the phase: an accept nothing, an outcome takes its job
  // from what is held.
  lemma TakeHeld(s: State, e: Event)
    requires Enabled(s, e) && (e.Accept? || e.Settle?)
    ensures Held(After(s, e).phase) == if e.Accept? then Held(s.phase) else Held(s.phase)[1..]
    ensures After(s, e).h.accepted == if e.Accept? then s.h.accepted + [e.job.messageId] else s.h.accepted
    ensures e.Settle? ==> Held(s.phase) != [] && Held(s.phase)[0] == s.phase.job
  {
    HeldAfter(s, e);
    if e.Settle? {
      assert Held(s.phase)[1..] == s.phase.pending;
    }
  }

  // The row an event writes is one of a log.
  lemma RowFits(s: State, e: Event)
    requires Enabled(s, e) && Writes(s, e)
    requires e.Settle? ==> s.phase.job.messageId in s.h.accepted && !s.phase.job.done
    ensures var row := RowOf(s, e);
      row.messageId in After(s, e).h.accepted && (!row.done ==> row.attempts < MAX_ATTEMPTS)
      && (e.Settle? ==> row.messageId == s.phase.job.messageId)
      && (e.Settle? ==> (row.done <==> !Decide(s.phase.job, s.phase.reply, e.retryAt).Retry?))
      && (e.Settle? && !row.done ==> row.attempts == s.phase.job.attempts + 1)
  {
    if e.Settle? {
      FoldKeyed(s.rows);
    } else {
      assert (s.h.accepted + [e.job.messageId])[|s.h.accepted|] == e.job.messageId;
    }
  }

  // Taking an event whose row is read.
  lemma TakeReadShape(t: TornState, e: Event, row: Job, last: LastLine)
    requires Shape(t) && Enabled(t.s, e) && Writes(t.s, e) && row == RowOf(t.s, e)
    requires last == LastLine.Fresh || last == Complete(row)
    ensures Shape(Take(t, e, t.s.rows + [row], true).(last := last))
  {
    var held, s', rows := Held(t.s.phase), After(t.s, e), t.s.rows + [row];
    TakeHeld(t.s, e);
    if e.Settle? {
      assert held[0] in held;
      RowFits(t.s, e);
      HeldTail(held, t.s.rows, t.s.h.accepted, t.stray);
      HeldOther(held[1..], t.s.rows, t.s.h.accepted, StillHeld(t.stray, s'.phase), row);
    } else {
      RowFits(t.s, e);
      HeldOther(held, t.s.rows, t.s.h.accepted, t.stray, row);
      HeldMore(held, rows, t.s.h.accepted, e.job.messageId, t.stray);
    }
    AllRowsMore(t.s.rows, row, s'.h.accepted);
    assert rows[|rows| - 1] == row;
  }

  // Taking one whose row is not, or that writes none.
  lemma TakeUnreadShape(t: TornState, e: Event, read: bool, last: LastLine)
    requires Shape(t) && Enabled(t.s, e) && (e.Accept? || e.Settle?) && (last == t.last || last == LastLine.Fresh)
    ensures Shape(Take(t, e, t.s.rows, read).(last := last))
  {
    var held, s' := Held(t.s.phase), After(t.s, e);
    TakeHeld(t.s, e);
    if e.Settle? {
      HeldTail(held, t.s.rows, t.s.h.accepted, t.stray);
    } else {
      HeldMore(held, t.s.rows, t.s.h.accepted, e.job.messageId, t.stray);
    }
  }

  lemma StruckFields(s: State, e: Event)
    requires Enabled(s, e) && (e.IoError? || e.Crash?)
    ensures var s' := After(s, e);
      s'.rows == s.rows && s'.phase == Idle && s'.acks == s.acks && s'.h.accepted == s.h.accepted
      && s'.h.sends == s.h.sends && s'.h.faults == s.h.faults + 1 && s'.h.condemned == s.h.condemned
  {
  }

  lemma StruckShape(t: TornState, e: Event)
    requires Shape(t) && Enabled(t.s, e) && (e.IoError? || e.Crash?)
    ensures Shape(Struck(t, e))
  {
    HeldAfter(t.s, e);
  }

  // Every other step: it leaves the rows alone, and holds no more of them, or it begins
  // a tick.
  predicate IsPlain(s: State, e: Event) {
    !e.Accept? && !e.Settle? && !e.IoError? && !e.Crash? && !(e.Compact? && NeedsCompaction(s.rows))
  }

  lemma PlainFields(s: State, e: Event)
    requires Enabled(s, e) && IsPlain(s, e)
    ensures var s' := After(s, e);
      s'.rows == s.rows && s'.h.accepted == s.h.accepted && s'.h.faults == s.h.faults
      && AllAcks(s') == AllAcks(s)
  {
    StepAcks(s, e);
  }

  lemma BeginHeld(rows: seq<Job>, accepted: seq<string>, snapshot: seq<Job>)
    requires AllRows(rows, accepted) && IsPendingList(snapshot, Live(rows))
    ensures HeldOk(snapshot, rows, accepted, None)
  {
    KnownIds(rows, accepted);
  }

  lemma PlainShape(t: TornState, e: Event)
    requires Shape(t) && Enabled(t.s, e) && IsPlain(t.s, e)
    ensures Shape(t.(s := After(t.s, e), stray := StillHeld(t.stray, After(t.s, e).phase)))
  {
    PlainFields(t.s, e);
    HeldAfter(t.s, e);
    if e.BeginTick? {
      BeginHeld(t.s.rows, t.s.h.accepted, e.snapshot);
    } else if e.Skip? {
      HeldTail(Held(t.s.phase), t.s.rows, t.s.h.accepted, t.stray);
    }
  }

  lemma CompactShape(t: TornState, e: Event, base: seq<Job>, writes: seq<Append>)
    requires Shape(t) && Enabled(t.s, e) && e.Compact? && NeedsCompaction(t.s.rows)
    ensures Shape(t.(s := After(t.s, e), base := base, writes := writes, last := LastLine.Fresh))
  {
    KnownIds(t.s.rows, t.s.h.accepted);
    assert forall r :: r in e.rows ==> r.messageId in Live(t.s.rows) && Live(t.s.rows)[r.messageId] == r;
  }

  // --- The file ---

  function LastAfter(c: Codec, last: LastLine, a: Append): LastLine {
    if a.n == 0 then last
    else if a.n > |c.encode(a.job)| then LastLine.Fresh
    else if last.Fresh? && a.n == |c.encode(a.job)| then Complete(a.job)
    else Damaged
  }

  // The last line after some appends.
  function LastOf(c: Codec, appends: seq<Append>, last: LastLine): LastLine
    decreases |appends|
  {
    if appends == [] then last else LastOf(c, appends[1..], LastAfter(c, last, appends[0]))
  }

  // What a reader gets of one append that ends the line.
  function OneRead(c: Codec, last: LastLine, a: Append): seq<Job> {
    if last.Fresh? && a.n > |c.encode(a.job)| then [a.job] else []
  }

  // Of all the lines that end.
  function Lines(c: Codec, appends: seq<Append>, last: LastLine): seq<Job>
    decreases |appends|
  {
    if appends == [] then [] else OneRead(c, last, appends[0]) + Lines(c, appends[1..], LastAfter(c, last, appends[0]))
  }

  function LastRow(last: LastLine): seq<Job> {
    if last.Complete? then [last.job] else []
  }

  lemma {:induction false} ReadBackSplit(c: Codec, appends: seq<Append>, last: LastLine)
    ensures ReadBack(c, appends, last) == Lines(c, appends, last) + LastRow(LastOf(c, appends, last))
    decreases |appends|
  {
    if appends == [] {
      assert [] + LastRow(last) == LastRow(last);
    } else {
      var last' := LastAfter(c, last, appends[0]);
      ReadBackSplit(c, appends[1..], last');
      Assoc(OneRead(c, last, appends[0]), Lines(c, appends[1..], last'), LastRow(LastOf(c, appends[1..], last')));
      assert [] + ReadBack(c, appends[1..], last') == ReadBack(c, appends[1..], last');
    }
  }

  lemma {:induction false} LinesMore(c: Codec, appends: seq<Append>, last: LastLine, a: Append)
    ensures LastOf(c, appends + [a], last) == LastAfter(c, LastOf(c, appends, last), a)
    ensures Lines(c, appends + [a], last) == Lines(c, appends, last) + OneRead(c, LastOf(c, appends, last), a)
    decreases |appends|
  {
    if appends == [] {
      var one := [a];
      assert [] + one == one && one[1..] == [];
      assert OneRead(c, last, a) + [] == OneRead(c, last, a) == [] + OneRead(c, last, a);
    } else {
      var b, rest := appends[0], appends[1..];
      assert (appends + [a])[1..] == rest + [a];
      LinesMore(c, rest, LastAfter(c, last, b), a);
      Assoc(OneRead(c, last, b), Lines(c, rest, LastAfter(c, last, b)),
            OneRead(c, LastOf(c, rest, LastAfter(c, last, b)), a));
    }
  }

  ghost predicate FileOk(c: Codec, t: TornState) {
    AllFit(c, t.writes) && AtBoundaries(c, t.writes) && LastOf(c, t.writes, LastLine.Fresh) == t.last
    && t.s.rows == t.base + Lines(c, t.writes, LastLine.Fresh) + LastRow(t.last)
  }

  // Gluing the next append takes away the row that lacks its newline.
  lemma BelowIsLines(c: Codec, t: TornState)
    requires FileOk(c, t)
    ensures Below(t.s.rows, t.last) == t.base + Lines(c, t.writes, LastLine.Fresh)
  {
    var lines := t.base + Lines(c, t.writes, LastLine.Fresh);
    if t.last.Complete? {
      assert (lines + [t.last.job])[..|lines|] == lines;
    } else {
      assert lines + [] == lines;
    }
  }

  lemma FileMore(c: Codec, t: TornState, t': TornState, a: Append)
    requires FileOk(c, t) && t'.base == t.base && t'.writes == t.writes + [a]
    requires 0 < a.n <= |c.encode(a.job)| + 1
    requires a.n <= |c.encode(a.job)| ==> IsCharBoundary(c.encode(a.job), a.n)
    requires t'.last == LastAfter(c, t.last, a)
    requires t'.s.rows == Below(t.s.rows, t.last) + OneRead(c, t.last, a) + LastRow(t'.last)
    ensures FileOk(c, t')
  {
    LinesMore(c, t.writes, LastLine.Fresh, a);
    BelowIsLines(c, t);
    Assoc(t.base, Lines(c, t.writes, LastLine.Fresh), OneRead(c, t.last, a));
  }

  lemma WroteFile(c: Codec, t: TornState, e: Event)
    requires FileOk(c, t) && Enabled(t.s, e) && Writes(t.s, e)
    ensures FileOk(c, Wrote(c, t, e))
  {
    var row := RowOf(t.s, e);
    var a := Append(row, |c.encode(row)| + 1);
    var below := Below(t.s.rows, t.last);
    assert below + [row] + [] == below + [row] && below + [] + [] == below;
    FileMore(c, t, Wrote(c, t, e), a);
  }

  lemma CutFile(c: Codec, t: TornState, row: Job, n: nat)
    requires FileOk(c, t) && 0 < n <= |c.encode(row)| && IsCharBoundary(c.encode(row), n)
    requires !(t.last.Fresh? && n == |c.encode(row)|)
    ensures FileOk(c, Cut(c, t, row, n))
  {
    var below := Below(t.s.rows, t.last);
    assert below + [] + [] == below;
    FileMore(c, t, Cut(c, t, row, n), Append(row, n));
  }

  lemma BareFile(c: Codec, t: TornState, e: Event)
    requires FileOk(c, t) && Enabled(t.s, e) && Writes(t.s, e) && t.last.Fresh? && c.encode(RowOf(t.s, e)) != []
    ensures FileOk(c, Bare(c, t, e))
  {
    var row := RowOf(t.s, e);
    assert t.s.rows + [] + [row] == t.s.rows + [row];
    FileMore(c, t, Bare(c, t, e), Append(row, |c.encode(row)|));
  }

  lemma FileKept(c: Codec, t: TornState, step: Step)
    requires CanStep(c, t, step) && FileOk(c, t)
    ensures FileOk(c, Next(c, t, step))
  {
    match step
    case Whole(e) =>
      if Writes(t.s, e) {
        WroteFile(c, t, e);
      } else {
        FilePlain(c, t, e);
      }
    case Tear(e, n, dies) =>
      if t.last.Fresh? && n == |c.encode(RowOf(t.s, e))| {
        BareFile(c, t, e);
        FileAborted(c, Bare(c, t, e), e, dies, t.s.sentTotal);
      } else {
        CutFile(c, t, RowOf(t.s, e), n);
        FileAborted(c, Cut(c, t, RowOf(t.s, e), n), e, dies, t.s.sentTotal);
      }
  }

  lemma FileAborted(c: Codec, t: TornState, e: Event, dies: bool, total: U64)
    requires FileOk(c, t) && (e.Settle? ==> Enabled(t.s, IoError))
    ensures FileOk(c, Aborted(t, e, dies, total))
  {
  }

  // Other steps leave the file alone, or write it anew.
  lemma FilePlain(c: Codec, t: TornState, e: Event)
    requires Enabled(t.s, e) && !Writes(t.s, e) && FileOk(c, t)
    ensures FileOk(c, Next(c, t, Whole(e)))
  {
    if e.Compact? {
      assert e.rows + [] + [] == e.rows;
    } else if e.IoError? || e.Crash? {
      StruckFields(t.s, e);
    } else if !e.Settle? {
      PlainFields(t.s, e);
    }
  }
}
