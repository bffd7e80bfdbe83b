// The two ways into the queue of src/outbound.rs: enqueue_for_instance, behind the
// tools, and enqueue_command, behind the broker.
module OutboundEnqueue {
  import opened Wrappers
  import opened Text
  import opened QueueLog
  import opened QueueFile
  import opened OutboundQueueStore

  datatype Command = Command(to: seq<string>, cc: seq<string>, bcc: seq<string>, messageId: Option<string>)

  predicate NoRecipients(cmd: Command) {
    cmd.to == [] && cmd.cc == [] && cmd.bcc == []
  }

  datatype EnqueueError =
    | RefusedWithoutRecipients(instance: string)
    | UnknownInstance(instance: string)
    | BuildFailed(messageId: string)
    | AppendFailed(messageId: string)

  // trim_start_matches
  function StripOpen(s: string): (t: string)
    ensures t == "" || t[0] != '<'
    ensures |t| <= |s| && t == s[|s| - |t|..] && forall i :: 0 <= i < |s| - |t| ==> s[i] == '<'
  {
    if s != "" && s[0] == '<' then StripOpen(s[1..]) else s
  }

  // trim_end_matches
  function StripClose(s: string): (t: string)
    ensures t <= s && (t == "" || t[|t| - 1] != '>')
    ensures forall i :: |t| <= i < |s| ==> s[i] == '>'
  {
    if s != "" && s[|s| - 1] == '>' then StripClose(s[..|s| - 1]) else s
  }

  predicate EndsWith(s: string, c: char) {
    s != "" && s[|s| - 1] == c
  }

  // The caller's Message-ID without its brackets, unless nothing is left of it.
  function SuppliedId(messageId: Option<string>): (id: Option<string>)
    ensures id.Some? ==> id.value != "" && !EndsWith(id.value, '>')
  {
    if messageId.None? then None
    else
      var id := StripClose(StripOpen(Trim(messageId.value)));
      if id == "" then None else Some(id)
  }

  function JobId(cmd: Command, generated: string): string {
    match SuppliedId(cmd.messageId)
    case None => generated
    case Some(id) => id
  }

  function Outcome(cmd: Command, generated: string, mime: string -> Option<seq<Byte>>, io: Io)
    : Result<string, EnqueueError>
  {
    var id := JobId(cmd, generated);
    if mime(id).None? then Err(BuildFailed(id))
    else if io.FailsAt? then Err(AppendFailed(id))
    else Ok(id)
  }

  function FreshJob(cmd: Command, id: string, instance: string, from: string, mime: seq<Byte>, now: int): Job {
    Job(id, instance, Envelope(from, cmd.to, cmd.cc, cmd.bcc), mime, 0, now, None, now, false)
  }

  // --- The id a command goes by, said without the stripping ---

  function Repeat(c: char, n: nat): string {
    seq(n, _ => c)
  }

  // '<' m times, then '>' n times.
  predicate BracketsOnly(t: string, m: nat, n: nat) {
    t == Repeat('<', m) + Repeat('>', n)
  }

  // An id with m opening brackets before it and n closing ones behind it, each of which
  // may be zero.
  predicate IdInBrackets(t: string, m: nat, id: string, n: nat) {
    id != "" && id[0] != '<' && id[|id| - 1] != '>' && t == Repeat('<', m) + id + Repeat('>', n)
  }

  // The caller's id out of its brackets, or the generated one when the caller gives no
  // text or nothing but brackets.
  ghost predicate GoesBy(messageId: Option<string>, generated: string, id: string) {
    match messageId
    case None => id == generated
    case Some(s) =>
      (exists m, n :: IdInBrackets(Trim(s), m, id, n))
      || (id == generated && exists m, n :: BracketsOnly(Trim(s), m, n))
  }

  class InstanceState {
    const queue: OutboundQueue
    const address: string

    constructor (queue: OutboundQueue, address: string)
      ensures this.queue == queue && this.address == address
    {
      this.queue, this.address := queue, address;
    }
  }

  // One append of that job and nothing else: when it succeeds, the job is the live row
  // of its id and every other row is as it was.
  twostate predicate Appended(q: OutboundQueue, job: Job, io: Io)
    reads q
  {
    q.dlqFile == old(q.dlqFile) && q.queueFile == old(q.queueFile) + Reaching(Line(q.codec, job), io)
    && (old(q.Healthy()) && io.Good? ==>
          q.Healthy() && q.Rows().value == old(q.Rows().value) + [job]
          && Live(q.Rows().value) == Live(old(q.Rows().value))[job.messageId := job])
  }

  class DispatcherCore {
    var instances: map<string, InstanceState>

    constructor ()
      ensures instances == map[]
    {
      instances := map[];
    }

    // generated: the id drawn when the command brings none. mime: what build_mime
    // yields for an id, None when an attachment file cannot be read.
    method EnqueueForInstance(instance: string, cmd: Command, generated: string,
                              mime: string -> Option<seq<Byte>>, now: int, io: Io)
      returns (r: Result<string, EnqueueError>)
      modifies if instance in instances then {instances[instance].queue} else {}
      ensures instances == old(instances)
      ensures NoRecipients(cmd) ==> r == Err(RefusedWithoutRecipients(instance))
      ensures !NoRecipients(cmd) && instance !in instances ==> r == Err(UnknownInstance(instance))
      ensures !NoRecipients(cmd) && instance in instances ==>
        r == Outcome(cmd, generated, mime, io)
      ensures instance in instances ==>
        var state := instances[instance];
        var id := JobId(cmd, generated);
        if NoRecipients(cmd) || mime(id).None? then unchanged(state.queue)
        else Appended(state.queue, FreshJob(cmd, id, instance, state.address, mime(id).value, now), io)
      // Which id, and the row field by field.
      ensures r.Ok? ==>
        instance in instances && GoesBy(cmd.messageId, generated, r.value) && mime(r.value).Some?
        && var q := instances[instance].queue;
           q.queueFile == old(q.queueFile) + Line(q.codec, Job(
             messageId := r.value,
             instance := instance,
             envelope := Envelope(from := instances[instance].address, to := cmd.to, cc := cmd.cc, bcc := cmd.bcc),
             rawMime := mime(r.value).value,
             attempts := 0,
             nextAttemptAt := now,
             lastError := None,
             createdAt := now,
             done := false))
      ensures r == Err(RefusedWithoutRecipients(instance)) <==> cmd.to == [] && cmd.cc == [] && cmd.bcc == []
      ensures (cmd.to != [] || cmd.cc != [] || cmd.bcc != []) && instance in instances ==>
        forall id :: GoesBy(cmd.messageId, generated, id) ==>
          r == if mime(id).None? then Err(BuildFailed(id)) else if io.FailsAt? then Err(AppendFailed(id)) else Ok(id)
    {
      if cmd.to == [] && cmd.cc == [] && cmd.bcc == [] {
        return Err(RefusedWithoutRecipients(instance));
      }
      if instance !in instances {
        return Err(UnknownInstance(instance));
      }
      var state := instances[instance];
      r := AppendJob(state.queue, instance, state.address, cmd, generated, mime, now, io);
      GoesByAll(cmd, generated);
    }
  }

  // enqueue_command: the same, for the worker's own account and with no look at the
  // recipients.
  method EnqueueCommand(state: InstanceState, instance: string, cmd: Command, generated: string,
                        mime: string -> Option<seq<Byte>>, now: int, io: Io)
    returns (r: Result<string, EnqueueError>)
    modifies state.queue
    ensures r == Outcome(cmd, generated, mime, io)
    ensures var id := JobId(cmd, generated);
      if mime(id).None? then unchanged(state.queue)
      else Appended(state.queue, FreshJob(cmd, id, instance, state.address, mime(id).value, now), io)
    // Which id, and the row field by field.
    ensures r.Ok? ==>
      GoesBy(cmd.messageId, generated, r.value) && mime(r.value).Some?
      && state.queue.queueFile == old(state.queue.queueFile) + Line(state.queue.codec, Job(
           messageId := r.value,
           instance := instance,
           envelope := Envelope(from := state.address, to := cmd.to, cc := cmd.cc, bcc := cmd.bcc),
           rawMime := mime(r.value).value,
           attempts := 0,
           nextAttemptAt := now,
           lastError := None,
           createdAt := now,
           done := false))
    ensures forall id :: GoesBy(cmd.messageId, generated, id) ==>
      r == if mime(id).None? then Err(BuildFailed(id)) else if io.FailsAt? then Err(AppendFailed(id)) else Ok(id)
  {
    r := AppendJob(state.queue, instance, state.address, cmd, generated, mime, now, io);
    GoesByAll(cmd, generated);
  }

  method AppendJob(q: OutboundQueue, instance: string, from: string, cmd: Command, generated: string,
                mime: string -> Option<seq<Byte>>, now: int, io: Io)
    returns (r: Result<string, EnqueueError>)
    modifies q
    ensures r == Outcome(cmd, generated, mime, io)
    ensures var id := JobId(cmd, generated);
      if mime(id).None? then unchanged(q)
      else Appended(q, FreshJob(cmd, id, instance, from, mime(id).value, now), io)
  {
    var supplied := SuppliedId(cmd.messageId);
    var id := if supplied.Some? then supplied.value else generated;
    var raw := mime(id);
    if raw.None? {
      return Err(BuildFailed(id));
    }
    var envelope := Envelope(from, cmd.to, cmd.cc, cmd.bcc);
    var job := Job(id, instance, envelope, raw.value, 0, now, None, now, false);
    var appended := q.Enqueue(job, io);
    if appended.Err? {
      return Err(AppendFailed(id));
    }
    if old(q.Healthy()) {
      LiveAppend(old(q.Rows().value), job);
    }
    return Ok(id);
  }

  // --- Which id a command ends up with ---

  lemma {:induction false} StripOpenMore(n: nat, s: string)
    requires s == "" || s[0] != '<'
    ensures StripOpen(Repeat('<', n) + s) == s
  {
    if n > 0 {
      assert (Repeat('<', n) + s)[1..] == Repeat('<', n - 1) + s;
      StripOpenMore(n - 1, s);
    } else {
      assert Repeat('<', 0) + s == s;
    }
  }

  lemma {:induction false} StripCloseMore(s: string, n: nat)
    requires s == "" || s[|s| - 1] != '>'
    ensures StripClose(s + Repeat('>', n)) == s
  {
    if n > 0 {
      assert (s + Repeat('>', n))[..|s| + n - 1] == s + Repeat('>', n - 1);
      StripCloseMore(s, n - 1);
    } else {
      assert s + Repeat('>', 0) == s;
    }
  }

  // The id that goes into the queue comes back from the header it is written to, and
  // from any number of brackets around it, none included, with blanks around them.
  lemma SuppliedIdRoundTrip(a: string, id: string, m: nat, n: nat, b: string)
    requires id != "" && id[0] != '<' && id[|id| - 1] != '>' && Blanks(a) && Blanks(b)
    requires (m > 0 || !IsWhitespace(id[0])) && (n > 0 || !IsWhitespace(id[|id| - 1]))
    ensures SuppliedId(Some(a + (Repeat('<', m) + id + Repeat('>', n)) + b)) == Some(id)
  {
    var t := Repeat('<', m) + id + Repeat('>', n);
    TrimLeaves(a, t, b);
    IdStrips(t, m, id, n);
  }

  lemma IdStrips(t: string, m: nat, id: string, n: nat)
    requires IdInBrackets(t, m, id, n)
    ensures StripClose(StripOpen(t)) == id
  {
    RegroupBrackets(Repeat('<', m), id, Repeat('>', n));
    StripOpenMore(m, id + Repeat('>', n));
    StripCloseMore(id, n);
  }

  // What stripping leaves, if anything, is an id in brackets.
  lemma StripsToId(t: string) returns (m: nat, n: nat)
    requires StripClose(StripOpen(t)) != ""
    ensures IdInBrackets(t, m, StripClose(StripOpen(t)), n)
  {
    var u := StripOpen(t);
    m := OpenPart(t);
    n := ClosePart(u);
    RegroupBrackets(Repeat('<', m), StripClose(u), Repeat('>', n));
    assert StripClose(u)[0] == u[0];
  }

  // Every text goes by what stripping leaves, or by the generated id if that is nothing ...
  lemma GoesByStripped(s: string, generated: string)
    ensures var id := StripClose(StripOpen(Trim(s)));
      GoesBy(Some(s), generated, if id == "" then generated else id)
  {
    var t := Trim(s);
    if StripClose(StripOpen(t)) == "" {
      var m, n := StrippedToNothing(t);
    } else {
      var m, n := StripsToId(t);
    }
  }

  // ... and by nothing else.
  lemma GoesByOnly(s: string, generated: string, id: string)
    requires GoesBy(Some(s), generated, id)
    ensures var stripped := StripClose(StripOpen(Trim(s)));
      id == if stripped == "" then generated else stripped
  {
    var t := Trim(s);
    if m: nat, n: nat :| IdInBrackets(t, m, id, n) {
      IdStrips(t, m, id, n);
    } else {
      var m: nat, n: nat :| BracketsOnly(t, m, n);
      BracketsStrip(t, m, n);
    }
  }

  // The id of a command is the one it goes by, and the only one.
  lemma GoesByOne(cmd: Command, generated: string, id: string)
    ensures GoesBy(cmd.messageId, generated, id) <==> id == JobId(cmd, generated)
  {
    if cmd.messageId.Some? {
      GoesByStripped(cmd.messageId.value, generated);
      if GoesBy(cmd.messageId, generated, id) {
        GoesByOnly(cmd.messageId.value, generated, id);
      }
    }
  }

  lemma GoesByAll(cmd: Command, generated: string)
    ensures forall id :: GoesBy(cmd.messageId, generated, id) <==> id == JobId(cmd, generated)
  {
    forall id {
      GoesByOne(cmd, generated, id);
    }
  }

  lemma StrippedToNothing(t: string) returns (m: nat, n: nat)
    requires StripClose(StripOpen(t)) == ""
    ensures BracketsOnly(t, m, n)
  {
    var u := StripOpen(t);
    m := OpenPart(t);
    n := |u|;
    AllOf(u, '>');
  }

  lemma OpenPart(t: string) returns (m: nat)
    ensures t == Repeat('<', m) + StripOpen(t)
  {
    m := |t| - |StripOpen(t)|;
    AllOf(t[..m], '<');
    assert t == t[..m] + t[m..];
  }

  lemma ClosePart(u: string) returns (n: nat)
    ensures u == StripClose(u) + Repeat('>', n)
  {
    var k := |StripClose(u)|;
    n := |u| - k;
    AllOf(u[k..], '>');
    assert u == u[..k] + u[k..];
  }

  lemma RegroupBrackets(a: string, b: string, c: string)
    ensures a + (b + c) == a + b + c
  {
  }

  lemma AllOf(s: string, c: char)
    requires forall i :: 0 <= i < |s| ==> s[i] == c
    ensures s == Repeat(c, |s|)
  {
  }

  lemma BracketsStrip(t: string, m: nat, n: nat)
    requires BracketsOnly(t, m, n)
    ensures StripClose(StripOpen(t)) == ""
  {
    StripOpenMore(m, Repeat('>', n));
    assert "" + Repeat('>', n) == Repeat('>', n);
    StripCloseMore("", n);
  }

  // A supplied id is dropped for a generated one exactly when, trimmed, it is opening
  // brackets followed by closing ones.
  lemma SuppliedIdDropped(s: string)
    ensures SuppliedId(Some(s)).None? <==> exists m, n :: BracketsOnly(Trim(s), m, n)
  {
    if SuppliedId(Some(s)).None? {
      var m, n := StrippedToNothing(Trim(s));
    }
    forall m, n | BracketsOnly(Trim(s), m, n) ensures SuppliedId(Some(s)).None? {
      BracketsStrip(Trim(s), m, n);
    }
  }

  // '<' m times, blanks, '>' n times.
  predicate BlankInBrackets(t: string, m: nat, blanks: string, n: nat) {
    blanks != "" && (forall i :: 0 <= i < |blanks| ==> IsWhitespace(blanks[i]))
    && t == Repeat('<', m) + blanks + Repeat('>', n)
  }

  lemma BlanksStrip(t: string, m: nat, blanks: string, n: nat)
    requires BlankInBrackets(t, m, blanks, n)
    ensures StripClose(StripOpen(t)) == blanks
  {
    assert t == Repeat('<', m) + (blanks + Repeat('>', n));
    StripOpenMore(m, blanks + Repeat('>', n));
    StripCloseMore(blanks, n);
  }

  lemma StrippedToBlanks(t: string) returns (m: nat, n: nat)
    requires var id := StripClose(StripOpen(t)); id != "" && forall i :: 0 <= i < |id| ==> IsWhitespace(id[i])
    ensures BlankInBrackets(t, m, StripClose(StripOpen(t)), n)
  {
    var u := StripOpen(t);
    var id := StripClose(u);
    m := OpenPart(t);
    n := ClosePart(u);
    RegroupBrackets(Repeat('<', m), id, Repeat('>', n));
  }

  // trim leaves nothing exactly of what is all whitespace.
  lemma BlankMeansWhitespace(s: string)
    ensures IsBlank(s) <==> forall i :: 0 <= i < |s| ==> IsWhitespace(s[i])
  {
    TrimStartRest(s);
    if IsBlank(s) && TrimStart(s) != "" {
      TrimEndKeepsHead(TrimStart(s));
    }
  }

  lemma {:induction false} TrimStartRest(s: string)
    ensures TrimStart(s) == "" <==> forall i :: 0 <= i < |s| ==> IsWhitespace(s[i])
  {
    if s != "" && IsWhitespace(s[0]) {
      TrimStartRest(s[1..]);
      assert forall i :: 0 < i < |s| ==> s[i] == s[1..][i - 1];
    }
  }

  // t, stripped, is blank but not empty.
  predicate StripsBlank(t: string) {
    StripClose(StripOpen(t)) != "" && IsBlank(StripClose(StripOpen(t)))
  }

  lemma StripsBlankExactly(t: string)
    ensures StripsBlank(t) <==> exists m, blanks, n :: BlankInBrackets(t, m, blanks, n)
  {
    if StripsBlank(t) {
      BlankMeansWhitespace(StripClose(StripOpen(t)));
      var m, n := StrippedToBlanks(t);
    }
    forall m, blanks, n | BlankInBrackets(t, m, blanks, n) ensures StripsBlank(t) {
      BlanksStrip(t, m, blanks, n);
      BlankMeansWhitespace(blanks);
    }
  }

  // The guard against empty ids trims outside the brackets, not inside: a blank id gets
  // into the queue exactly when the supplied text, trimmed, is brackets with nothing but
  // blanks between them.
  lemma BlankIdAccepted(s: string)
    ensures (SuppliedId(Some(s)).Some? && IsBlank(SuppliedId(Some(s)).value))
       <==> exists m, blanks, n :: BlankInBrackets(Trim(s), m, blanks, n)
  {
    StripsBlankExactly(Trim(s));
  }

  // The shortest one.
  lemma BlankIdExample()
    ensures SuppliedId(Some("< >")) == Some(" ")
  {
    assert Repeat('<', 1) + " " + Repeat('>', 1) == "< >";
    SuppliedIdRoundTrip("", " ", 1, 1, "");
    assert "" + "< >" + "" == "< >";
  }
}
