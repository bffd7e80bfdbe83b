// The delivery-status scanner of src/dsn.rs: a loop over raw lines with two
// pieces of state, against the reading section 2.3 of RFC 3464 and section 2.2.3
// of RFC 5322 give: unfold the lines into fields, then look each slot up.
module Dsn {
  import opened Wrappers
  import opened Text

  datatype Slot = Action | Status | Recipient | Diagnostic

  // The four slots of a ParsedBounce the scanner fills.
  datatype Fields = Fields(
    action: Option<string>,
    status: Option<string>,
    recipient: Option<string>,
    reason: Option<string>)

  function Get(f: Fields, slot: Slot): Option<string> {
    match slot
    case Action => f.action
    case Status => f.status
    case Recipient => f.recipient
    case Diagnostic => f.reason
  }

  function Put(f: Fields, slot: Slot, v: string): Fields {
    match slot
    case Action => f.(action := Some(v))
    case Status => f.(status := Some(v))
    case Recipient => f.(recipient := Some(v))
    case Diagnostic => f.(reason := Some(v))
  }

  // --- The reading ---

  predicate IsContinuation(line: string) {
    line != "" && (line[0] == ' ' || line[0] == '\t')
  }

  // A field after unfolding. A line without a colon is a field without a name.
  datatype Field = Field(name: Option<string>, value: string)

  function HeadOf(line: string): Field {
    var k := Find(line, ':');
    if k < |line| then Field(Some(Lower(Trim(line[..k]))), Trim(line[k + 1..]))
    else Field(None, "")
  }

  // How many of the lines continue the field before them.
  function Run(lines: seq<string>): (n: nat)
    ensures n <= |lines|
    ensures forall i :: 0 <= i < n ==> IsContinuation(lines[i])
    ensures n < |lines| ==> !IsContinuation(lines[n])
  {
    if lines == [] || !IsContinuation(lines[0]) then 0 else 1 + Run(lines[1..])
  }

  function Unfolded(value: string, more: seq<string>): string
    decreases |more|
  {
    if more == [] then value else Unfolded(value + " " + Trim(more[0]), more[1..])
  }

  // Each field line takes the continuation lines behind it; those at the very
  // top of the body belong to nothing.
  function LogicalFields(lines: seq<string>): seq<Field>
    decreases |lines|
  {
    if lines == [] then []
    else
      var n := Run(lines[1..]);
      var rest := LogicalFields(lines[n + 1..]);
      if IsContinuation(lines[0]) then rest
      else
        var head := HeadOf(lines[0]);
        [head.(value := Unfolded(head.value, lines[1..n + 1]))] + rest
  }

  // Final-Recipient and Original-Recipient share a slot.
  function SlotOf(name: Option<string>): Option<Slot> {
    match name
    case None => None
    case Some(n) =>
      if n == "action" then Some(Action)
      else if n == "status" then Some(Status)
      else if n == "final-recipient" || n == "original-recipient" then Some(Recipient)
      else if n == "diagnostic-code" then Some(Diagnostic)
      else None
  }

  predicate Fills(f: Field, slot: Slot) {
    SlotOf(f.name) == Some(slot) && !IsBlank(f.value)
  }

  // What is stored: an address loses its type, up to the first semicolon.
  function Stored(slot: Slot, value: string): string {
    var v := Trim(value);
    if slot == Recipient && Find(v, ';') < |v| then Trim(v[Find(v, ';') + 1..]) else v
  }

  // The first field that fills the slot decides it.
  function FirstValue(fields: seq<Field>, slot: Slot): Option<string> {
    if fields == [] then None
    else if Fills(fields[0], slot) then Some(Stored(slot, fields[0].value))
    else FirstValue(fields[1..], slot)
  }

  function LookUp(fields: seq<Field>, init: Fields, slot: Slot): Option<string> {
    if Get(init, slot).Some? then Get(init, slot) else FirstValue(fields, slot)
  }

  function Reading(fields: seq<Field>, init: Fields): Fields {
    Fields(LookUp(fields, init, Action), LookUp(fields, init, Status),
           LookUp(fields, init, Recipient), LookUp(fields, init, Diagnostic))
  }

  // --- The loop ---

  // flush_dsn_field
  function Flush(current: Option<Slot>, buf: string, out: Fields): Fields {
    if current.None? || IsBlank(buf) || Get(out, current.value).Some? then out
    else Put(out, current.value, Stored(current.value, buf))
  }

  // The key a field line opens: Original-Recipient only while no recipient is set.
  function KeyOf(name: Option<string>, out: Fields): Option<Slot> {
    if name == Some("original-recipient") && out.recipient.Some? then None else SlotOf(name)
  }

  // The rest of the loop from a state of its two variables.
  function Scan(current: Option<Slot>, buf: string, out: Fields, lines: seq<string>): Fields
    decreases |lines|
  {
    if lines == [] then Flush(current, buf, out)
    else if IsContinuation(lines[0]) then Scan(current, buf + " " + Trim(lines[0]), out, lines[1..])
    else
      var out' := Flush(current, buf, out);
      var head := HeadOf(lines[0]);
      Scan(KeyOf(head.name, out'), head.value, out', lines[1..])
  }

  // One field, folded or not: its name, a colon, the rest of the line, and the lines that
  // continue it.
  ghost predicate OneField(lines: seq<string>, name: string, rest: string, more: seq<string>) {
    lines == [name + ":" + rest] + more && ':' !in name
    && (name == "" || (name[0] != ' ' && name[0] != '\t'))
    && forall i :: 0 <= i < |more| ==> more[i] != "" && (more[i][0] == ' ' || more[i][0] == '\t')
  }

  // Continuation lines are joined to the value with one space each.
  lemma {:induction false} UnfoldsLast(value: string, more: seq<string>, line: string)
    ensures Unfolded(value, []) == value
    ensures Unfolded(value, more + [line]) == Unfolded(value, more) + " " + Trim(line)
    decreases |more|
  {
    if more == [] {
      assert more + [line] == [line] && [line][1..] == [];
    } else {
      assert (more + [line])[1..] == more[1..] + [line];
      UnfoldsLast(value + " " + Trim(more[0]), more[1..], line);
    }
  }

  // A field is flushed once, with all of its value.
  lemma FieldScan(lines: seq<string>, name: string, rest: string, more: seq<string>, out: Fields)
    requires OneField(lines, name, rest, more)
    ensures Scan(None, "", out, lines)
         == Flush(KeyOf(Some(Lower(Trim(name))), out), Unfolded(Trim(rest), more), out)
  {
    var line := name + ":" + rest;
    FindAt(name, ':', rest);
    assert line[..|name|] == name && line[|name| + 1..] == rest;
    assert lines[0] == line && lines[1..] == more;
    assert line[0] == if name == "" then ':' else name[0];
    ScanRun(KeyOf(HeadOf(line).name, out), HeadOf(line).value, out, more);
    assert Run(more) == |more| && more[..|more|] == more;
  }

  // The name in any case and with blanks around it decides the slot, and the trimmed
  // value goes there if the slot is free and the value is not blank.
  lemma FlushEffect(n: string, buf: string, out: Fields)
    ensures var v := Trim(buf);
      var after := Flush(KeyOf(Some(n), out), buf, out);
      after.action == (if n == "action" && v != "" && out.action.None? then Some(v) else out.action)
      && after.status == (if n == "status" && v != "" && out.status.None? then Some(v) else out.status)
      && after.reason == (if n == "diagnostic-code" && v != "" && out.reason.None? then Some(v) else out.reason)
      && (!((n == "final-recipient" || n == "original-recipient") && v != "" && out.recipient.None?) ==>
            after.recipient == out.recipient)
  {
  }

  // An address loses its type: what follows the first semicolon is stored.
  lemma RecipientEffect(n: string, buf: string, out: Fields)
    ensures var v := Trim(buf);
      (n == "final-recipient" || n == "original-recipient") && v != "" && out.recipient.None? ==>
        Flush(KeyOf(Some(n), out), buf, out).recipient
        == Some(if ';' !in v then v else Trim(v[Find(v, ';') + 1..]))
  {
    var v := Trim(buf);
    assert ';' in v ==> Find(v, ';') < |v|;
  }

  // Trimming a type, a semicolon and an address leaves the front of the type and the
  // back of the address alone.
  lemma TrimTyped(kind: string, address: string) returns (k: string, tail: string)
    requires ';' !in kind
    ensures ';' !in k && Trim(kind + ";" + address) == k + ";" + tail && Trim(tail) == Trim(address)
  {
    k, tail := TrimStart(kind), TrimEnd(address);
    var p := TrimStartDrops(kind);
    assert ';' !in p + k;
    Assoc(kind, ";", address);
    TrimStartFront(kind, ";" + address);
    Assoc(k, ";", address);
    TrimEndBack(k + ";", address);
    TrimAfterEnd(address);
  }

  // Blanks around the address and around the whole value do not matter.
  lemma AddressOfType(kind: string, address: string)
    requires ';' !in kind
    ensures var v := Trim(kind + ";" + address);
      ';' in v && Trim(v[Find(v, ';') + 1..]) == Trim(address)
  {
    var k, tail := TrimTyped(kind, address);
    FindAt(k, ';', tail);
    assert (k + ";" + tail)[|k| + 1..] == tail;
  }

  // What a report of one field leaves.
  lemma FieldEffect(lines: seq<string>, name: string, rest: string, more: seq<string>, out: Fields)
    requires OneField(lines, name, rest, more)
    ensures var n, v := Lower(Trim(name)), Trim(Unfolded(Trim(rest), more));
      var after := Reading(LogicalFields(lines), out);
      after.action == (if n == "action" && v != "" && out.action.None? then Some(v) else out.action)
      && after.status == (if n == "status" && v != "" && out.status.None? then Some(v) else out.status)
      && after.reason == (if n == "diagnostic-code" && v != "" && out.reason.None? then Some(v) else out.reason)
      && after.recipient == if (n == "final-recipient" || n == "original-recipient") && v != "" && out.recipient.None?
                            then Some(if ';' !in v then v else Trim(v[Find(v, ';') + 1..]))
                            else out.recipient
  {
    ScanIsReading(lines, out);
    FieldScan(lines, name, rest, more, out);
    var n, buf := Lower(Trim(name)), Unfolded(Trim(rest), more);
    assert Reading(LogicalFields(lines), out) == Flush(KeyOf(Some(n), out), buf, out);
    FlushEffect(n, buf, out);
    RecipientEffect(n, buf, out);
  }

  lemma FieldEffects(lines: seq<string>, out: Fields, after: Fields)
    requires after == Reading(LogicalFields(lines), out)
    ensures
      forall name, rest, more :: OneField(lines, name, rest, more) ==>
        var n, v := Lower(Trim(name)), Trim(Unfolded(Trim(rest), more));
        after.action == (if n == "action" && v != "" && out.action.None? then Some(v) else out.action)
        && after.status == (if n == "status" && v != "" && out.status.None? then Some(v) else out.status)
        && after.reason == (if n == "diagnostic-code" && v != "" && out.reason.None? then Some(v) else out.reason)
        && after.recipient == if (n == "final-recipient" || n == "original-recipient") && v != ""
                                 && out.recipient.None?
                              then Some(if ';' !in v then v else Trim(v[Find(v, ';') + 1..]))
                              else out.recipient
  {
    forall name, rest, more | OneField(lines, name, rest, more) {
      FieldEffect(lines, name, rest, more, out);
    }
  }

  lemma AddressEffects(lines: seq<string>, out: Fields)
    requires out.recipient.None?
    ensures forall name, kind, address ::
      OneField(lines, name, kind + ";" + address, []) && ';' !in kind
      && Lower(Trim(name)) in ["final-recipient", "original-recipient"] ==>
        Reading(LogicalFields(lines), out).recipient == Some(Trim(address))
  {
    forall name, kind, address |
      OneField(lines, name, kind + ";" + address, []) && ';' !in kind
      && Lower(Trim(name)) in ["final-recipient", "original-recipient"]
      ensures Reading(LogicalFields(lines), out).recipient == Some(Trim(address))
    {
      FieldEffect(lines, name, kind + ";" + address, [], out);
      AddressOfType(kind, address);
      TrimTwice(kind + ";" + address);
    }
  }

  // Reports of several fields are read field by field: a field ends where the next line
  // that is no continuation begins.
  lemma ScanSplits(a: seq<string>, b: seq<string>, out: Fields)
    requires b == [] || !IsContinuation(b[0])
    ensures Reading(LogicalFields(a + b), out) == Reading(LogicalFields(b), Reading(LogicalFields(a), out))
  {
    ScanIsReading(a + b, out);
    ScanIsReading(a, out);
    ScanIsReading(b, Scan(None, "", out, a));
    ScanOn(None, "", a, b, out);
  }

  lemma {:induction false} ScanOn(current: Option<Slot>, buf: string, a: seq<string>, b: seq<string>, out: Fields)
    requires b == [] || !IsContinuation(b[0])
    ensures Scan(current, buf, out, a + b) == Scan(None, "", Scan(current, buf, out, a), b)
    decreases |a|
  {
    if a == [] {
      assert a + b == b;
      ScanFlush(current, buf, out, b);
    } else {
      assert (a + b)[1..] == a[1..] + b;
      if IsContinuation(a[0]) {
        ScanOn(current, buf + " " + Trim(a[0]), a[1..], b, out);
      } else {
        var out' := Flush(current, buf, out);
        ScanOn(KeyOf(HeadOf(a[0]).name, out'), HeadOf(a[0]).value, a[1..], b, out');
      }
    }
  }

  // Continuation lines before the first field belong to nothing ...
  lemma LeadingLines(lines: seq<string>, out: Fields)
    requires forall i :: 0 <= i < |lines| ==> IsContinuation(lines[i])
    ensures Reading(LogicalFields(lines), out) == out
  {
    if lines != [] {
      var more := lines[1..];
      assert forall i :: 0 <= i < |more| ==> more[i] == lines[i + 1];
      assert Run(more) == |more| && lines[|more| + 1..] == [];
    }
  }

  // ... and so does a line without a colon, with the lines that continue it.
  lemma LineWithoutColon(line: string, more: seq<string>, out: Fields)
    requires !IsContinuation(line) && ':' !in line
    requires forall i :: 0 <= i < |more| ==> IsContinuation(more[i])
    ensures Reading(LogicalFields([line] + more), out) == out
  {
    var lines := [line] + more;
    assert lines[1..] == more && lines[1..|more| + 1] == more;
    assert Run(more) == |more| && lines[|more| + 1..] == [];
    ReadingCons(Field(None, Unfolded("", more)), [], out);
  }

  class ParsedBounce {
    var action: Option<string>
    var statusCode: Option<string>
    var recipient: Option<string>
    var reason: Option<string>

    ghost function Slots(): Fields
      reads this
    {
      Fields(action, statusCode, recipient, reason)
    }

    constructor ()
      ensures Slots() == Fields(None, None, None, None)
    {
      action, statusCode, recipient, reason := None, None, None, None;
    }

    method FlushDsnField(current: Option<Slot>, buf: string)
      modifies this
      ensures Slots() == Flush(current, buf, old(Slots()))
      // The slot that is named takes the trimmed value, if there is one and it is the first;
      // of an address type, a semicolon and an address it takes the address.
      ensures var v := Trim(buf);
        action == (if current == Some(Action) && v != "" && old(action).None? then Some(v) else old(action))
        && statusCode == (if current == Some(Status) && v != "" && old(statusCode).None? then Some(v)
                          else old(statusCode))
        && reason == (if current == Some(Diagnostic) && v != "" && old(reason).None? then Some(v) else old(reason))
        && recipient == (if current == Some(Recipient) && v != "" && old(recipient).None?
                         then Some(if ';' !in v then v else Trim(v[Find(v, ';') + 1..])) else old(recipient))
    {
      if current.None? {
        return;
      }
      var v := Trim(buf);
      if v == "" {
        return;
      }
      match current.value {
        case Action =>
          if action.None? {
            action := Some(v);
          }
        case Status =>
          if statusCode.None? {
            statusCode := Some(v);
          }
        case Recipient =>
          if recipient.None? {
            var k := Find(v, ';');
            assert k == |v| <==> ';' !in v;
            recipient := Some(if k < |v| then Trim(v[k + 1..]) else v);
          }
        case Diagnostic =>
          if reason.None? {
            reason := Some(v);
          }
      }
    }

    method ExtractDeliveryStatusFields(body: string)
      modifies this
      ensures Slots() == Reading(LogicalFields(Lines(body)), old(Slots()))
      // A report of one field fills the slot of its name, in any case and with blanks around
      // it, with its trimmed value, unless that is blank or the slot is taken.
      ensures forall name, rest, more :: OneField(Lines(body), name, rest, more) ==>
        var n, v := Lower(Trim(name)), Trim(Unfolded(Trim(rest), more));
        action == (if n == "action" && v != "" && old(action).None? then Some(v) else old(action))
        && statusCode == (if n == "status" && v != "" && old(statusCode).None? then Some(v) else old(statusCode))
        && reason == (if n == "diagnostic-code" && v != "" && old(reason).None? then Some(v) else old(reason))
        && recipient == if (n == "final-recipient" || n == "original-recipient") && v != "" && old(recipient).None?
                        then Some(if ';' !in v then v else Trim(v[Find(v, ';') + 1..]))
                        else old(recipient)
      // Of an address type, a semicolon and an address it takes the address.
      ensures old(recipient).None? ==>
        forall name, kind, address ::
          OneField(Lines(body), name, kind + ";" + address, []) && ';' !in kind
          && Lower(Trim(name)) in ["final-recipient", "original-recipient"] ==>
            recipient == Some(Trim(address))
    {
      var lines := Lines(body);
      ScanLines(lines);
      FieldEffects(lines, old(Slots()), Slots());
      if old(recipient).None? {
        AddressEffects(lines, old(Slots()));
      }
    }

    // Line after line; the last field ends with the body.
    method ScanLines(lines: seq<string>)
      modifies this
      ensures Slots() == Reading(LogicalFields(lines), old(Slots()))
    {
      var current: Option<Slot> := None;
      var buf := "";
      for i := 0 to |lines|
        invariant Scan(current, buf, Slots(), lines[i..]) == Scan(None, "", old(Slots()), lines)
      {
        assert lines[i..][0] == lines[i] && lines[i..][1..] == lines[i + 1..];
        current, buf := TakeLine(lines[i], current, buf);
      }
      FlushDsnField(current, buf);
      ScanIsReading(lines, old(Slots()));
    }

    // One line: it continues the open field, or closes it and opens its own.
    method TakeLine(rawLine: string, current: Option<Slot>, buf: string)
      returns (current': Option<Slot>, buf': string)
      modifies this
      ensures IsContinuation(rawLine) ==>
        Slots() == old(Slots()) && current' == current && buf' == buf + " " + Trim(rawLine)
      ensures !IsContinuation(rawLine) ==>
        Slots() == Flush(current, buf, old(Slots()))
        && current' == KeyOf(HeadOf(rawLine).name, Slots()) && buf' == HeadOf(rawLine).value
    {
      if IsContinuation(rawLine) {
        return current, buf + " " + Trim(rawLine);
      }
      FlushDsnField(current, buf);
      buf' := "";
      current' := None;
      var k := Find(rawLine, ':');
      if k < |rawLine| {
        current' := KeyNamed(Lower(Trim(rawLine[..k])));
        buf' := Trim(rawLine[k + 1..]);
      }
    }

    // Original-Recipient counts only while no recipient is set.
    method KeyNamed(n: string) returns (key: Option<Slot>)
      ensures key == KeyOf(Some(n), Slots())
    {
      if n == "action" {
        return Some(Action);
      } else if n == "status" {
        return Some(Status);
      } else if n == "final-recipient" {
        return Some(Recipient);
      } else if n == "original-recipient" {
        return if recipient.None? then Some(Recipient) else None;
      } else if n == "diagnostic-code" {
        return Some(Diagnostic);
      }
      return None;
    }
  }

  // --- The loop computes the reading ---

  // A field followed by its continuation lines is one field with the longer value.
  lemma {:induction false} ScanRun(current: Option<Slot>, buf: string, out: Fields, lines: seq<string>)
    ensures var n := Run(lines);
      Scan(current, buf, out, lines) == Scan(current, Unfolded(buf, lines[..n]), out, lines[n..])
    decreases |lines|
  {
    var n := Run(lines);
    if n > 0 {
      ScanRun(current, buf + " " + Trim(lines[0]), out, lines[1..]);
      assert lines[..n][1..] == lines[1..][..n - 1];
      assert lines[1..][n - 1..] == lines[n..];
    } else {
      assert lines[0..] == lines;
    }
  }

  // A finished field leaves the state a fresh scan of the rest starts from.
  lemma ScanFlush(current: Option<Slot>, buf: string, out: Fields, lines: seq<string>)
    requires lines == [] || !IsContinuation(lines[0])
    ensures Scan(current, buf, out, lines) == Scan(None, "", Flush(current, buf, out), lines)
  {
  }

  // Without an open field the buffer does not matter.
  lemma {:induction false} ScanIdle(buf: string, out: Fields, lines: seq<string>)
    ensures Scan(None, buf, out, lines) == Scan(None, "", out, lines)
    decreases |lines|
  {
    if lines != [] && IsContinuation(lines[0]) {
      ScanIdle(buf + " " + Trim(lines[0]), out, lines[1..]);
      ScanIdle("" + " " + Trim(lines[0]), out, lines[1..]);
    }
  }

  lemma ReadingCons(f: Field, fields: seq<Field>, init: Fields)
    ensures Reading([f] + fields, init) == Reading(fields, Flush(KeyOf(f.name, init), f.value, init))
  {
    var all := [f] + fields;
    assert all[0] == f && all[1..] == fields;
  }

  lemma {:induction false} ScanIsReading(lines: seq<string>, out: Fields)
    ensures Scan(None, "", out, lines) == Reading(LogicalFields(lines), out)
    decreases |lines|
  {
    if lines != [] {
      var n := Run(lines[1..]);
      var rest := lines[n + 1..];
      assert lines[1..][..n] == lines[1..n + 1] && lines[1..][n..] == rest;
      if IsContinuation(lines[0]) {
        var buf := "" + " " + Trim(lines[0]);
        ScanRun(None, buf, out, lines[1..]);
        ScanIdle(Unfolded(buf, lines[1..n + 1]), out, rest);
        ScanIsReading(rest, out);
      } else {
        var head := HeadOf(lines[0]);
        var value := Unfolded(head.value, lines[1..n + 1]);
        var key := KeyOf(head.name, out);
        ScanRun(key, head.value, out, lines[1..]);
        ScanFlush(key, value, out, rest);
        ScanIsReading(rest, Flush(key, value, out));
        ReadingCons(head.(value := value), LogicalFields(rest), out);
      }
    }
  }

  // --- Two bodies ---

  lemma {:induction false} FirstValueConcat(a: seq<Field>, b: seq<Field>, slot: Slot)
    ensures FirstValue(a + b, slot)
         == if FirstValue(a, slot).Some? then FirstValue(a, slot) else FirstValue(b, slot)
  {
    if a == [] {
      assert a + b == b;
    } else {
      assert (a + b)[1..] == a[1..] + b;
      FirstValueConcat(a[1..], b, slot);
    }
  }

  // Scanning two reports one after the other is one reading of all their fields,
  // with the earlier report first.
  lemma ScanTwoBodies(first: seq<string>, second: seq<string>, out: Fields)
    ensures Scan(None, "", Scan(None, "", out, first), second)
         == Reading(LogicalFields(first) + LogicalFields(second), out)
  {
    ScanIsReading(first, out);
    ScanIsReading(second, Scan(None, "", out, first));
    var a, b := LogicalFields(first), LogicalFields(second);
    FirstValueConcat(a, b, Action);
    FirstValueConcat(a, b, Status);
    FirstValueConcat(a, b, Recipient);
    FirstValueConcat(a, b, Diagnostic);
  }

  // --- The classification ---

  datatype BounceClassification = Permanent | Transient | Unknown

  function FromStatusCode(code: Option<string>): BounceClassification {
    match code
    case None => Unknown
    case Some(s) =>
      var t := Trim(s);
      if t != "" && t[0] == '5' then Permanent
      else if t != "" && t[0] == '4' then Transient
      else Unknown
  }

  // The class of a code is its first character that is not a blank.
  lemma StatusClass(blanks: string, c: char, rest: string)
    requires forall i :: 0 <= i < |blanks| ==> IsWhitespace(blanks[i])
    requires !IsWhitespace(c)
    ensures FromStatusCode(Some(blanks + [c] + rest))
         == if c == '5' then Permanent else if c == '4' then Transient else Unknown
    ensures FromStatusCode(Some(blanks)) == Unknown
  {
    assert blanks + [c] + rest == blanks + ([c] + rest);
    TrimStartSkips(blanks, [c] + rest);
    TrimEndKeepsHead([c] + rest);
    assert blanks + "" == blanks;
    TrimStartSkips(blanks, "");
  }

  // The verdict on a report hangs on its first non-blank Status field alone; later
  // ones, other fields and a second report cannot change it.
  lemma FirstStatusDecides(first: seq<string>, second: seq<string>, code: string)
    requires FirstValue(LogicalFields(first), Status) == Some(code)
    ensures var none := Fields(None, None, None, None);
      FromStatusCode(Scan(None, "", Scan(None, "", none, first), second).status) == FromStatusCode(Some(code))
  {
    ScanTwoBodies(first, second, Fields(None, None, None, None));
    FirstValueConcat(LogicalFields(first), LogicalFields(second), Status);
  }
}
