// What becomes of a job that is enqueued under an id the queue already knows, which
// the state machine of the outbound worker otherwise shuts out: callers may supply
// their own Message-ID.
module ReusedIds {
  import opened Wrappers
  import opened QueueLog
  import opened Dispatcher
  import opened DispatcherRuns

  datatype Step = Worker(e: Event) | Reaccept(job: Job)

  ghost predicate CanStep(s: State, step: Step) {
    match step
    case Worker(e) => Enabled(s, e)
    case Reaccept(job) => job.messageId in s.h.accepted && job.attempts == 0 && !job.done
  }

  ghost function Next(s: State, step: Step): State
    requires CanStep(s, step)
  {
    match step
    case Worker(e) => After(s, e)
    case Reaccept(job) => s.(rows := s.rows + [job])
  }

  // states[i + 1] is what steps[i] makes of states[i].
  ghost predicate Path(states: seq<State>, steps: seq<Step>) {
    |states| == |steps| + 1
    && forall i :: 0 <= i < |steps| ==> CanStep(states[i], steps[i]) && states[i + 1] == Next(states[i], steps[i])
  }

  // The step handles an outcome of that id.
  predicate Settles(s: State, step: Step, id: string) {
    step.Worker? && step.e.Settle? && s.phase.Deciding? && s.phase.job.messageId == id
  }

  predicate Reuses(step: Step, id: string) {
    step.Reaccept? && step.job.messageId == id
  }

  // second has just been enqueued under an id in use, at step 0; from there to step n
  // the id is neither settled nor reused again.
  ghost predicate Pending(states: seq<State>, steps: seq<Step>, second: Job, n: nat) {
    Path(states, steps) && 0 < n <= |steps| && steps[0] == Reaccept(second)
    && forall i :: 1 <= i < n ==>
         !Settles(states[i], steps[i], second.messageId) && !Reuses(steps[i], second.messageId)
  }

  // A tick begins between the enqueue and step n.
  ghost predicate Ticked(steps: seq<Step>, n: nat)
    requires n <= |steps|
  {
    exists i :: 1 <= i < n && steps[i].Worker? && steps[i].e.BeginTick?
  }

  // --- One step ---

  // Only settling the id, or reusing it, changes its live row.
  lemma LiveRowKept(s: State, step: Step, second: Job)
    requires CanStep(s, step) && second.messageId in s.h.accepted
    requires second.messageId in LiveJobs(s) && LiveJobs(s)[second.messageId] == second
    requires !Settles(s, step, second.messageId) && !Reuses(step, second.messageId)
    ensures var s' := Next(s, step);
      second.messageId in s'.h.accepted
      && second.messageId in LiveJobs(s') && LiveJobs(s')[second.messageId] == second
  {
    match step
    case Worker(e) => StepLive(s, e);
    case Reaccept(job) => LiveAppend(s.rows, job);
  }

  // The rows a tick holds were held before the step, unless the step begins the tick:
  // then they are the live ones.
  lemma HeldStep(s: State, step: Step, j: Job)
    requires CanStep(s, step) && j in Held(Next(s, step).phase)
    ensures if step.Worker? && step.e.BeginTick?
            then j.messageId in LiveJobs(s) && LiveJobs(s)[j.messageId] == j
            else j in Held(s.phase)
  {
    if step.Worker? {
      HeldAfter(s, step.e);
    }
  }

  // A reply is recorded for a row the tick holds; nothing else is.
  lemma ResolutionStep(s: State, step: Step)
    requires CanStep(s, step)
    ensures var before, after := s.h.resolutions, Next(s, step).h.resolutions;
      after == before
      || (|after| == |before| + 1 && after[..|before|] == before && after[|before|].job in Held(s.phase))
  {
    if step.Worker? && step.e.Reply? {
      var s' := Next(s, step);
      assert s'.h.resolutions[..|s.h.resolutions|] == s.h.resolutions;
      assert Held(s.phase)[0] == s.phase.job;
    }
  }

  // --- Along a run ---

  lemma {:induction false} SecondStays(states: seq<State>, steps: seq<Step>, second: Job, n: nat)
    requires Pending(states, steps, second, n)
    ensures second.messageId in states[n].h.accepted
    ensures second.messageId in LiveJobs(states[n]) && LiveJobs(states[n])[second.messageId] == second
  {
    if n == 1 {
      LiveAppend(states[0].rows, second);
    } else {
      SecondStays(states, steps, second, n - 1);
      LiveRowKept(states[n - 1], steps[n - 1], second);
    }
  }

  lemma TickedMore(steps: seq<Step>, n: nat)
    requires 1 <= n < |steps|
    ensures Ticked(steps, n + 1) <==> Ticked(steps, n) || (steps[n].Worker? && steps[n].e.BeginTick?)
  {
  }

  // A held row of the id is second once a tick has begun, and before that one that was
  // held when second came.
  lemma {:induction false} HeldRows(states: seq<State>, steps: seq<Step>, second: Job, n: nat, j: Job)
    requires Pending(states, steps, second, n) && j in Held(states[n].phase) && j.messageId == second.messageId
    ensures if Ticked(steps, n) then j == second else j in Held(states[0].phase)
  {
    HeldStep(states[n - 1], steps[n - 1], j);
    if n > 1 {
      TickedMore(steps, n - 1);
      if steps[n - 1].Worker? && steps[n - 1].e.BeginTick? {
        SecondStays(states, steps, second, n - 1);
      } else {
        HeldRows(states, steps, second, n - 1, j);
      }
    }
  }

  // A reply for second has come in since the enqueue.
  ghost predicate Answered(states: seq<State>, n: nat, second: Job)
    requires n < |states|
  {
    exists k ::
      |states[0].h.resolutions| <= k < |states[n].h.resolutions| && states[n].h.resolutions[k].job == second
  }

  // Only a reply for second answers it, and it must be held to get one.
  lemma StillUnanswered(states: seq<State>, steps: seq<Step>, second: Job, n: nat)
    requires Path(states, steps) && n < |steps| && !Answered(states, n, second)
    requires second !in Held(states[n].phase)
    ensures !Answered(states, n + 1, second)
  {
    ResolutionStep(states[n], steps[n]);
    var before, after := states[n].h.resolutions, states[n + 1].h.resolutions;
    NoneAnswers(before, after, |states[0].h.resolutions|, Held(states[n].phase), second);
  }

  lemma NoneAnswers(before: seq<Resolution>, after: seq<Resolution>, base: nat, held: seq<Job>, second: Job)
    requires after == before
      || (|after| == |before| + 1 && after[..|before|] == before && after[|before|].job in held)
    requires second !in held && forall k :: base <= k < |before| ==> before[k].job != second
    ensures forall k :: base <= k < |after| ==> after[k].job != second
  {
    forall k | base <= k < |after| ensures after[k].job != second {
      if k < |before| {
        assert before[k] == after[..|before|][k];
      }
    }
  }

  // Before a tick begins, no reply is for second.
  lemma {:induction false} NoReplyYet(states: seq<State>, steps: seq<Step>, second: Job, n: nat)
    requires Pending(states, steps, second, n) && !Ticked(steps, n) && second !in Held(states[0].phase)
    ensures !Answered(states, n, second)
  {
    if n > 1 {
      TickedMore(steps, n - 1);
      NoReplyYet(states, steps, second, n - 1);
      if second in Held(states[n - 1].phase) {
        HeldRows(states, steps, second, n - 1, second);
      }
    }
    StillUnanswered(states, steps, second, n - 1);
  }

  // --- The results ---

  // The next outcome handled for the id is second's own exactly when a tick begins
  // between the enqueue and that outcome. Otherwise it is the outcome of an older row,
  // which the tick then in progress was holding, and second was not sent.
  lemma FateOfReusedId(states: seq<State>, steps: seq<Step>, second: Job, n: nat)
    requires Pending(states, steps, second, n) && n < |steps| && Settles(states[n], steps[n], second.messageId)
    requires second !in Held(states[0].phase)
    ensures states[n].phase.job == second <==> Ticked(steps, n)
    ensures !Ticked(steps, n) ==>
      states[n].phase.job in Held(states[0].phase) && !Answered(states, n, second)
  {
    var job := states[n].phase.job;
    assert Held(states[n].phase)[0] == job;
    HeldRows(states, steps, second, n, job);
    if !Ticked(steps, n) {
      NoReplyYet(states, steps, second, n);
    }
  }

  // What a caller can check beforehand: while the worker holds no row of the id, a
  // second job under it is handled as itself, whatever happens in between.
  lemma SafeWhileNotHeld(states: seq<State>, steps: seq<Step>, second: Job, n: nat)
    requires Pending(states, steps, second, n) && n < |steps| && Settles(states[n], steps[n], second.messageId)
    requires forall j :: j in Held(states[0].phase) ==> j.messageId != second.messageId
    ensures states[n].phase.job == second
  {
    FateOfReusedId(states, steps, second, n);
  }

  // --- The exact condition ---

  // Rows of the tick's snapshot that are still to be looked at.
  function Waiting(p: Phase): seq<Job> {
    if p.Idle? then [] else p.pending
  }

  // The worker is sending a row of the id, or its tick will: one that waits and is due.
  ghost predicate Danger(s: State, id: string) {
    ((s.phase.Sending? || s.phase.Deciding?) && s.phase.job.messageId == id)
    || (!s.phase.Idle? && exists j :: j in s.phase.pending && j.messageId == id && j.nextAttemptAt <= s.phase.now)
  }

  // The in-flight table, as every reachable state has it.
  predicate FlightOk(s: State) {
    s.inFlight == if s.phase.Sending? then {s.phase.job.messageId} else {}
  }

  // A row that waits and is not due is skipped, so nothing but a new tick brings danger.
  lemma DangerStep(s: State, step: Step, id: string)
    requires CanStep(s, step) && !Danger(s, id) && !(step.Worker? && step.e.BeginTick?)
    ensures !Danger(Next(s, step), id)
  {
    var s' := Next(s, step);
    if step.Worker? && !s'.phase.Idle? {
      forall j | j in s'.phase.pending && j.messageId == id ensures j.nextAttemptAt > s'.phase.now {
        assert j in s.phase.pending;
      }
      if step.e.Send? {
        assert s.phase.pending[0] in s.phase.pending;
      }
    }
  }

  lemma {:induction false} NoDangerYet(states: seq<State>, steps: seq<Step>, second: Job, n: nat)
    requires Pending(states, steps, second, n) && !Ticked(steps, n) && !Danger(states[0], second.messageId)
    ensures !Danger(states[n], second.messageId)
  {
    if n > 1 {
      TickedMore(steps, n - 1);
      NoDangerYet(states, steps, second, n - 1);
    }
    DangerStep(states[n - 1], steps[n - 1], second.messageId);
  }

  // What brings the tick one step nearer to a row that is due.
  function Onward(s: State): Event {
    match s.phase
    case Draining(_, _) => if CanSend(s) then Event.Send else Event.Skip
    case Sending(_, _, _) => Event.Reply(Delivered)
    case Deciding(_, _, _, _) => Event.Settle(0)
    case BetweenAppends(_, _, _, _) => Event.WriteDlq
    case Acking(_, _, _) => Event.PublishAck(true)
    case Idle => Event.EndTick
  }

  function Distance(p: Phase): nat {
    5 * |Waiting(p)|
    + match p
      case Sending(_, _, _) => 4
      case Deciding(_, _, _, _) => 3
      case BetweenAppends(_, _, _, _) => 2
      case Acking(_, _, _) => 1
      case _ => 0
  }

  lemma OnwardStep(s: State, id: string)
    requires Danger(s, id) && FlightOk(s) && !(s.phase.Deciding? && s.phase.job.messageId == id)
    ensures Enabled(s, Onward(s))
    ensures var s' := After(s, Onward(s));
      Danger(s', id) && FlightOk(s') && Distance(s'.phase) < Distance(s.phase)
  {
    if !(s.phase.Sending? && s.phase.job.messageId == id) {
      var j :| j in s.phase.pending && j.messageId == id && j.nextAttemptAt <= s.phase.now;
      var s' := After(s, Onward(s));
      if s.phase.Draining? && s.phase.pending[0] != j {
        assert j in s.phase.pending[1..];
      }
    }
  }

  // From a dangerous state the worker can get to handling an outcome of the id without
  // beginning a tick or settling the id on the way.
  lemma Drive(s: State, id: string) returns (states: seq<State>, steps: seq<Step>)
    requires Danger(s, id) && FlightOk(s)
    ensures Path(states, steps) && states[0] == s
    ensures forall i :: 0 <= i < |steps| ==>
      steps[i].Worker? && !steps[i].e.BeginTick? && !Settles(states[i], steps[i], id)
    ensures states[|steps|].phase.Deciding? && states[|steps|].phase.job.messageId == id
    decreases Distance(s.phase)
  {
    if s.phase.Deciding? && s.phase.job.messageId == id {
      return [s], [];
    }
    OnwardStep(s, id);
    var step := Worker(Onward(s));
    var rest, more := Drive(Next(s, step), id);
    states, steps := [s] + rest, [step] + more;
    PathCons(s, step, rest, more);
    forall i | 0 <= i < |steps|
      ensures steps[i].Worker? && !steps[i].e.BeginTick? && !Settles(states[i], steps[i], id)
    {
      if i > 0 {
        assert states[i] == rest[i - 1] && steps[i] == more[i - 1];
      }
    }
  }

  lemma PathCons(s: State, step: Step, rest: seq<State>, more: seq<Step>)
    requires CanStep(s, step) && Path(rest, more) && rest[0] == Next(s, step)
    ensures Path([s] + rest, [step] + more)
  {
    var states, steps := [s] + rest, [step] + more;
    forall i | 0 <= i < |steps| ensures CanStep(states[i], steps[i]) && states[i + 1] == Next(states[i], steps[i]) {
      if i > 0 {
        assert states[i] == rest[i - 1] && steps[i] == more[i - 1] && states[i + 1] == rest[i];
      }
    }
  }

  lemma PathSnoc(states: seq<State>, steps: seq<Step>, step: Step)
    requires Path(states, steps) && CanStep(states[|steps|], step)
    ensures Path(states + [Next(states[|steps|], step)], steps + [step])
  {
  }

  // However the run goes on, the first outcome handled for the id is second's own.
  ghost predicate Safe(s: State, second: Job) {
    forall states: seq<State>, steps: seq<Step>, n: nat ::
      Pending(states, steps, second, n) && states[0] == s
      && n < |steps| && Settles(states[n], steps[n], second.messageId) ==>
        states[n].phase.job == second
  }

  // A run that is not: the outcome handled is that of an older row.
  lemma UnsafeRun(s: State, second: Job) returns (states: seq<State>, steps: seq<Step>, n: nat)
    requires CanStep(s, Reaccept(second)) && FlightOk(s) && Danger(s, second.messageId)
    requires second !in Held(s.phase)
    ensures Pending(states, steps, second, n) && states[0] == s
    ensures n < |steps| && Settles(states[n], steps[n], second.messageId) && states[n].phase.job != second
  {
    var step := Reaccept(second);
    var rest, more := Drive(Next(s, step), second.messageId);
    var settle := Worker(Event.Settle(0));
    PathSnoc(rest, more, settle);
    var on, driven := rest + [Next(rest[|more|], settle)], more + [settle];
    PathCons(s, step, on, driven);
    states, steps, n := [s] + on, [step] + driven, |more| + 1;
    forall i | 1 <= i < n
      ensures !Settles(states[i], steps[i], second.messageId) && !Reuses(steps[i], second.messageId)
      ensures steps[i].Worker? && !steps[i].e.BeginTick?
    {
      assert states[i] == rest[i - 1] && steps[i] == more[i - 1];
    }
    assert states[n] == rest[|more|] && steps[n] == settle;
    FateOfReusedId(states, steps, second, n);
  }

  // What a caller can check beforehand: a second job under an id in use is handled as
  // itself, whatever happens next, exactly when the worker is not sending a row of the
  // id and none that is due waits in its tick.
  lemma SafeExactly(s: State, second: Job)
    requires CanStep(s, Reaccept(second)) && FlightOk(s) && second !in Held(s.phase)
    ensures Safe(s, second) <==> !Danger(s, second.messageId)
  {
    if Danger(s, second.messageId) {
      var states, steps, n := UnsafeRun(s, second);
    } else {
      forall states: seq<State>, steps: seq<Step>, n: nat |
        Pending(states, steps, second, n) && states[0] == s
        && n < |steps| && Settles(states[n], steps[n], second.messageId)
        ensures states[n].phase.job == second
      {
        if !Ticked(steps, n) {
          NoDangerYet(states, steps, second, n);
          assert false;
        }
        FateOfReusedId(states, steps, second, n);
      }
    }
  }

  // --- The earlier job ---

  // Rows of one job, whatever its attempts.
  predicate SameMail(a: Job, b: Job) {
    a.messageId == b.messageId && a.instance == b.instance && a.envelope == b.envelope
    && a.rawMime == b.rawMime && a.createdAt == b.createdAt
  }

  // All rows of the id that can still be sent are second's.
  ghost predicate OnlySecond(s: State, second: Job) {
    second.messageId in s.h.accepted
    && (second.messageId in LiveJobs(s) ==> SameMail(LiveJobs(s)[second.messageId], second))
    && forall j :: j in Held(s.phase) && j.messageId == second.messageId ==> SameMail(j, second)
  }

  lemma LiveIsSecond(s: State, step: Step, second: Job)
    requires CanStep(s, step) && OnlySecond(s, second) && !Reuses(step, second.messageId)
    ensures var s' := Next(s, step);
      second.messageId in LiveJobs(s') ==> SameMail(LiveJobs(s')[second.messageId], second)
  {
    match step
    case Worker(e) => {
      StepLive(s, e);
      if e.Settle? {
        assert Held(s.phase)[0] == s.phase.job;
      }
    }
    case Reaccept(job) => LiveAppend(s.rows, job);
  }

  lemma OnlySecondStep(s: State, step: Step, second: Job)
    requires CanStep(s, step) && OnlySecond(s, second) && !Reuses(step, second.messageId)
    ensures OnlySecond(Next(s, step), second)
  {
    var s' := Next(s, step);
    LiveIsSecond(s, step, second);
    forall j | j in Held(s'.phase) && j.messageId == second.messageId ensures SameMail(j, second) {
      HeldStep(s, step, j);
    }
  }

  lemma {:induction false} OnlySecondAt(states: seq<State>, steps: seq<Step>, second: Job, n: nat)
    requires Path(states, steps) && 0 < n <= |steps| && steps[0] == Reaccept(second)
    requires forall i :: 1 <= i < n ==> !Reuses(steps[i], second.messageId)
    requires forall j :: j in Held(states[0].phase) ==> j.messageId != second.messageId
    ensures OnlySecond(states[n], second)
  {
    if n == 1 {
      LiveAppend(states[0].rows, second);
    } else {
      OnlySecondAt(states, steps, second, n - 1);
      OnlySecondStep(states[n - 1], steps[n - 1], second);
    }
  }

  // An earlier job of the id that is live and not held is superseded: whatever is sent
  // under the id from then on, and every reply that comes for it, is for second. The
  // earlier job is never sent again, and nothing says so.
  lemma EarlierIsSuperseded(states: seq<State>, steps: seq<Step>, second: Job, n: nat)
    requires Path(states, steps) && 0 < n < |steps| && steps[0] == Reaccept(second)
    requires forall i :: 1 <= i < n ==> !Reuses(steps[i], second.messageId)
    requires forall j :: j in Held(states[0].phase) ==> j.messageId != second.messageId
    ensures steps[n] == Worker(Event.Send) && states[n].phase.pending[0].messageId == second.messageId ==>
      SameMail(states[n].phase.pending[0], second)
    ensures steps[n].Worker? && steps[n].e.Reply? && states[n].phase.job.messageId == second.messageId ==>
      SameMail(states[n].phase.job, second)
    ensures Settles(states[n], steps[n], second.messageId) ==> SameMail(states[n].phase.job, second)
  {
    OnlySecondAt(states, steps, second, n);
    var s := states[n];
    if s.phase.Draining? && s.phase.pending != [] {
      assert s.phase.pending[0] in Held(s.phase);
    }
    if s.phase.Sending? || s.phase.Deciding? {
      assert Held(s.phase)[0] == s.phase.job;
    }
  }

  // What the outcome of an older row does to second: success and failure end it, a
  // retry puts the older row in its place. None of the three leaves it.
  lemma OlderOutcomeEndsSecond(s: State, retryAt: int, second: Job)
    requires s.phase.Deciding? && s.phase.job.messageId == second.messageId && s.phase.job != second
    requires !s.phase.job.done && second.attempts == 0 && !second.done
    requires second.messageId in LiveJobs(s) && LiveJobs(s)[second.messageId] == second
    ensures var after := LiveJobs(After(s, Event.Settle(retryAt)));
      match Decide(s.phase.job, s.phase.reply, retryAt)
      case Finish => second.messageId !in after
      case GiveUp(_) => second.messageId !in after
      case Retry(updated, _) =>
        second.messageId in after && after[second.messageId] == updated != second
        && updated.rawMime == s.phase.job.rawMime && updated.envelope == s.phase.job.envelope
  {
    StepLive(s, Event.Settle(retryAt));
  }

  // Enqueued under the id of the job whose outcome is being handled, whatever that
  // outcome is: second is no longer the live row, and nothing was sent.
  lemma ReusedIdIsLost(s: State, retryAt: int, second: Job)
    requires s.phase.Deciding? && !s.phase.job.done
    requires s.phase.job.messageId == second.messageId && s.phase.job != second
    requires CanStep(s, Reaccept(second))
    ensures var t := Next(s, Reaccept(second));
      var t' := After(t, Event.Settle(retryAt));
      second.messageId in LiveJobs(t) && LiveJobs(t)[second.messageId] == second
      && (second.messageId in LiveJobs(t') ==> LiveJobs(t')[second.messageId] != second)
      && t'.h.sends == s.h.sends && t'.h.resolutions == s.h.resolutions
  {
    LiveAppend(s.rows, second);
    OlderOutcomeEndsSecond(Next(s, Reaccept(second)), retryAt, second);
  }

  // --- A run that loses the second job ---

  lemma Extend(states: seq<State>, steps: seq<Step>, step: Step) returns (states': seq<State>, steps': seq<Step>)
    requires Path(states, steps) && CanStep(states[|steps|], step)
    ensures steps' == steps + [step] && Path(states', steps') && states'[0] == states[0]
    ensures states'[|steps'|] == Next(states[|steps|], step)
  {
    PathSnoc(states, steps, step);
    states', steps' := states + [Next(states[|steps|], step)], steps + [step];
  }

  // first is accepted and on its way.
  lemma FirstSent(first: Job) returns (states: seq<State>, steps: seq<Step>)
    requires first.attempts == 0 && !first.done
    ensures Path(states, steps) && states[0] == Init()
    ensures steps == [Worker(Accept(first)), Worker(BeginTick([first], first.nextAttemptAt)), Worker(Event.Send)]
    ensures var s := states[3];
      s.rows == [first] && s.phase == Sending(first, [], first.nextAttemptAt) && s.acks == []
      && s.h.accepted == [first.messageId] && s.h.sends == [first.messageId] && s.h.resolutions == []
  {
    LiveAppend([], first);
    assert IsPendingList([first], map[first.messageId := first]);
    states, steps := Extend([Init()], [], Worker(Accept(first)));
    assert states[1] == After(Init(), Accept(first)) && states[1].rows == [first];
    ghost var s1 := states[1];
    states, steps := Extend(states, steps, Worker(BeginTick([first], first.nextAttemptAt)));
    assert states[2] == s1.(phase := Draining([first], first.nextAttemptAt));
    states, steps := Extend(states, steps, Worker(Event.Send));
  }

  // Then second is enqueued under the same id, and first is delivered.
  lemma FirstDelivered(first: Job, second: Job, before: seq<State>, past: seq<Step>)
    returns (states: seq<State>, steps: seq<Step>)
    requires second.attempts == 0 && !second.done && first.messageId == second.messageId
    requires Path(before, past)
    requires var s := before[|past|];
      s.rows == [first] && s.phase == Sending(first, [], first.nextAttemptAt) && s.acks == []
      && s.h.accepted == [first.messageId] && s.h.sends == [first.messageId] && s.h.resolutions == []
    ensures Path(states, steps) && states[0] == before[0]
    ensures steps == past + [Reaccept(second)] + [Worker(Event.Reply(Delivered))] + [Worker(Event.Settle(0))]
    ensures var s := states[|steps|];
      s.phase == Acking(Ack(first.messageId, Sent, None), [], first.nextAttemptAt) && s.acks == []
      && s.rows == MarkDoneRows([first, second], first.messageId)
      && s.h.sends == [first.messageId] && s.h.resolutions == [Resolution(first, Delivered)]
  {
    states, steps := Extend(before, past, Reaccept(second));
    assert states[|steps|].rows == [first, second];
    states, steps := Extend(states, steps, Worker(Event.Reply(Delivered)));
    states, steps := Extend(states, steps, Worker(Event.Settle(0)));
  }

  lemma NothingLive(first: Job, second: Job)
    requires !first.done && !second.done && first.messageId == second.messageId
    ensures Live(MarkDoneRows([first, second], first.messageId)) == map[]
  {
    LiveAppend([], first);
    LiveAppend([first], second);
    assert [] + [first] == [first] && [first] + [second] == [first, second];
    LiveMarkDone([first, second], first.messageId);
  }

  // second is enqueued under the same id while first is being sent, and first is
  // delivered: the id is acknowledged, nothing is left in the queue, and second was
  // never sent.
  lemma SecondNeverSent(first: Job, second: Job) returns (states: seq<State>, steps: seq<Step>)
    requires first.attempts == 0 == second.attempts && !first.done && !second.done
    requires first.messageId == second.messageId
    ensures Path(states, steps) && states[0] == Init()
    ensures steps == [Worker(Accept(first)), Worker(BeginTick([first], first.nextAttemptAt)), Worker(Event.Send),
                      Reaccept(second), Worker(Event.Reply(Delivered)), Worker(Event.Settle(0)),
                      Worker(Event.PublishAck(true)), Worker(Event.EndTick)]
    ensures var s := states[|steps|];
      s.phase.Idle? && LiveJobs(s) == map[] && s.acks == [Ack(first.messageId, Sent, None)]
      && s.h.sends == [first.messageId] && s.h.resolutions == [Resolution(first, Delivered)]
  {
    states, steps := FirstSent(first);
    states, steps := FirstDelivered(first, second, states, steps);
    NothingLive(first, second);
    states, steps := Extend(states, steps, Worker(Event.PublishAck(true)));
    states, steps := Extend(states, steps, Worker(Event.EndTick));
  }
}
