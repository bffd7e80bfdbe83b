// The IMAP printers of src/tool/imap_op.rs, src/tool/search.rs and
// src/tool/label.rs, and a reader for what they print: astrings, quoted strings and
// parentheses as section 9 of RFC 3501 defines them. The reader knows no literals.
module ImapText {
  import opened Wrappers
  import opened Text

  // --- The characters of section 9 ---

  // CHAR: 7 bits, without NUL.
  predicate IsChar(c: char) {
    1 <= c as int <= 0x7F
  }

  predicate IsCtl(c: char) {
    c as int <= 0x1F || c as int == 0x7F
  }

  // atom-specials
  predicate AtomSpecial(c: char) {
    c in {'(', ')', '{', ' ', '%', '*', '"', '\\', ']'} || IsCtl(c)
  }

  predicate AtomChar(c: char) {
    IsChar(c) && !AtomSpecial(c)
  }

  predicate AstringChar(c: char) {
    AtomChar(c) || c == ']'
  }

  predicate TextChar(c: char) {
    IsChar(c) && c != '\r' && c != '\n'
  }

  // --- Reading ---

  datatype Token = Word(text: string) | Quoted(text: string) | Open | Close | Space

  // The body of a quoted string up to its closing quote: the text and what is left.
  // Only \ and " are escaped, and nothing but a TEXT-CHAR may stand inside.
  function LexQuoted(s: string): (r: Option<(string, string)>)
    ensures r.Some? ==> |r.value.1| < |s|
  {
    if s == "" || !TextChar(s[0]) then None
    else if s[0] == '"' then Some(("", s[1..]))
    else if s[0] == '\\' then
      if |s| >= 2 && (s[1] == '\\' || s[1] == '"') then
        match LexQuoted(s[2..])
        case None => None
        case Some((text, rest)) => Some(([s[1]] + text, rest))
      else None
    else
      match LexQuoted(s[1..])
      case None => None
      case Some((text, rest)) => Some(([s[0]] + text, rest))
  }

  function WordLength(s: string): (n: nat)
    ensures n <= |s| && (forall i :: 0 <= i < n ==> AstringChar(s[i])) && (n < |s| ==> !AstringChar(s[n]))
  {
    if s == "" || !AstringChar(s[0]) then 0 else 1 + WordLength(s[1..])
  }

  function Cons(t: Token, rest: Option<seq<Token>>): Option<seq<Token>> {
    match rest case None => None case Some(ts) => Some([t] + ts)
  }

  // None when some character fits no token.
  function Tokens(s: string): Option<seq<Token>>
    decreases |s|
  {
    if s == "" then Some([])
    else if s[0] == ' ' then Cons(Space, Tokens(s[1..]))
    else if s[0] == '(' then Cons(Open, Tokens(s[1..]))
    else if s[0] == ')' then Cons(Close, Tokens(s[1..]))
    else if s[0] == '"' then
      match LexQuoted(s[1..])
      case None => None
      case Some((text, rest)) => Cons(Quoted(text), Tokens(rest))
    else
      var n := WordLength(s);
      if n == 0 then None else Cons(Word(s[..n]), Tokens(s[n..]))
  }

  // --- imap_quote ---

  function EscapeChar(c: char): string {
    if c == '\\' then "\\\\"
    else if c == '"' then "\\\""
    else if c == '\r' || c == '\n' then " "
    else [c]
  }

  function Escape(s: string): string {
    if s == "" then "" else EscapeChar(s[0]) + Escape(s[1..])
  }

  function Quote(s: string): string {
    "\"" + Escape(s) + "\""
  }

  method ImapQuote(s: string) returns (out: string)
    ensures out == Quote(s)
  {
    out := "\"";
    for i := 0 to |s|
      invariant out == "\"" + Escape(s[..i])
    {
      EscapeNext(s, i);
      match s[i] {
        case '\\' => out := out + "\\\\";
        case '"' => out := out + "\\\"";
        case '\r' => out := out + " ";
        case '\n' => out := out + " ";
        case c => out := out + [c];
      }
    }
    assert s[..|s|] == s;
    out := out + "\"";
  }

  lemma EscapeNext(s: string, i: nat)
    requires i < |s|
    ensures "\"" + Escape(s[..i + 1]) == "\"" + Escape(s[..i]) + EscapeChar(s[i])
  {
    EscapeAppend(s[..i], s[i]);
    assert s[..i + 1] == s[..i] + [s[i]];
    var one := [s[i]];
    assert one[1..] == "" && EscapeChar(s[i]) + "" == EscapeChar(s[i]);
  }

  lemma {:induction false} EscapeAppend(s: string, c: char)
    ensures Escape(s + [c]) == Escape(s) + Escape([c])
  {
    if s == "" {
      assert s + [c] == [c];
    } else {
      assert (s + [c])[1..] == s[1..] + [c];
      EscapeAppend(s[1..], c);
    }
  }

  // The value a reader gets back: line breaks have become spaces.
  function Flatten(s: string): string {
    if s == "" then ""
    else [if s[0] == '\r' || s[0] == '\n' then ' ' else s[0]] + Flatten(s[1..])
  }

  predicate SevenBit(s: string) {
    forall i :: 0 <= i < |s| ==> IsChar(s[i])
  }

  lemma FirstApart(a: string, b: string, c: string, d: string)
    ensures a + b + c + d == a + (b + c + d)
  {
  }

  // A quoted value reads back, and ends where it was meant to end, exactly when it is
  // 7-bit text without NUL: nothing else may stand in a quoted string, and the printer
  // passes everything but line breaks, quotes and backslashes through.
  lemma {:induction false} LexEscaped(s: string, rest: string)
    ensures LexQuoted(Escape(s) + "\"" + rest) == if SevenBit(s) then Some((Flatten(s), rest)) else None
  {
    if s == "" {
      assert "" + "\"" + rest == "\"" + rest;
      assert ("\"" + rest)[1..] == rest;
    } else {
      LexEscaped(s[1..], rest);
      var tail := Escape(s[1..]) + "\"" + rest;
      LexChar(s[0], tail);
      SevenBitCons(s);
      FirstApart(EscapeChar(s[0]), Escape(s[1..]), "\"", rest);
    }
  }

  lemma SevenBitCons(s: string)
    requires s != ""
    ensures SevenBit(s) <==> IsChar(s[0]) && SevenBit(s[1..])
  {
    assert forall i :: 0 < i < |s| ==> s[i] == s[1..][i - 1];
  }

  lemma LexChar(c: char, tail: string)
    ensures LexQuoted(EscapeChar(c) + tail)
         == if !IsChar(c) then None else
            match LexQuoted(tail)
            case None => None
            case Some((text, rest)) => Some(([if c == '\r' || c == '\n' then ' ' else c] + text, rest))
  {
    var s := EscapeChar(c) + tail;
    assert s[|EscapeChar(c)|..] == tail;
  }

  lemma TokensQuoted(s: string, rest: string)
    ensures Tokens(Quote(s) + rest) == if SevenBit(s) then Cons(Quoted(Flatten(s)), Tokens(rest)) else None
  {
    LexEscaped(s, rest);
    assert (Quote(s) + rest)[1..] == Escape(s) + "\"" + rest;
  }

  predicate IsAtom(w: string) {
    w != "" && forall i :: 0 <= i < |w| ==> AtomChar(w[i])
  }

  predicate IsAstring(w: string) {
    w != "" && forall i :: 0 <= i < |w| ==> AstringChar(w[i])
  }

  lemma TokensWord(w: string, rest: string)
    requires IsAstring(w) && (rest == "" || !AstringChar(rest[0]))
    ensures Tokens(w + rest) == Cons(Word(w), Tokens(rest))
  {
    var s := w + rest;
    assert forall i :: 0 <= i < |w| ==> s[i] == w[i];
    assert rest != "" ==> s[|w|] == rest[0];
    assert WordLength(s) == |w|;
    assert s[..|w|] == w && s[|w|..] == rest;
    assert s[0] == w[0];
  }

  // --- build_search_atoms ---

  datatype SearchQuery = SearchQuery(
    from: Option<string>,
    fromDomain: Option<string>,
    to: Option<string>,
    subject: Option<string>,
    body: Option<string>,
    since: Option<string>,
    before: Option<string>,
    unseen: Option<bool>,
    seen: Option<bool>,
    hasAttachments: Option<bool>)

  // Parsing YYYY-MM-DD and printing it as an IMAP date, seen from outside: an atom.
  datatype Dates = Dates(render: string -> Option<string>) {
    ghost predicate Lawful() {
      forall s :: render(s).Some? ==> IsAtom(render(s).value)
    }
  }

  // A criterion of a query: a key alone, a key and a value, a key and a date.
  datatype Criterion = Flag(key: string) | Text(key: string, value: string) | Date(key: string, date: string)

  function Print(c: Criterion): string {
    match c
    case Flag(key) => key
    case Text(key, value) => key + " " + Quote(value)
    case Date(key, date) => key + " " + date
  }

  // trim_start_matches('@')
  function TrimAt(s: string): (t: string)
    ensures t == "" || t[0] != '@'
    ensures |t| <= |s| && t == s[|s| - |t|..] && forall i :: 0 <= i < |s| - |t| ==> s[i] == '@'
  {
    if s != "" && s[0] == '@' then TrimAt(s[1..]) else s
  }

  function TextOf(key: string, v: Option<string>): seq<Criterion> {
    match v case None => [] case Some(s) => [Text(key, s)]
  }

  // A leading @ is not doubled, and a domain of nothing but @ is dropped.
  function DomainOf(v: Option<string>): seq<Criterion> {
    match v
    case None => []
    case Some(s) => if TrimAt(Trim(s)) == "" then [] else [Text("FROM", "@" + TrimAt(Trim(s)))]
  }

  function DateOf(d: Dates, key: string, v: Option<string>): seq<Criterion> {
    match v
    case None => []
    case Some(s) => match d.render(s) case None => [] case Some(t) => [Date(key, t)]
  }

  function FlagOf(key: string, v: Option<bool>): seq<Criterion> {
    if v == Some(true) then [Flag(key)] else []
  }

  predicate BadDate(d: Dates, v: Option<string>) {
    v.Some? && d.render(v.value).None?
  }

  function TextCriteria(q: SearchQuery): seq<Criterion> {
    TextOf("FROM", q.from) + DomainOf(q.fromDomain) + TextOf("TO", q.to)
    + TextOf("SUBJECT", q.subject) + TextOf("BODY", q.body)
  }

  function DateCriteria(d: Dates, q: SearchQuery): seq<Criterion> {
    DateOf(d, "SINCE", q.since) + DateOf(d, "BEFORE", q.before)
  }

  function FlagCriteria(q: SearchQuery): seq<Criterion> {
    FlagOf("UNSEEN", q.unseen) + FlagOf("SEEN", q.seen)
    + if q.hasAttachments == Some(true) then [Text("BODY", "multipart/")] else []
  }

  // The criteria a query sets, in the order they are sent.
  function Criteria(d: Dates, q: SearchQuery): seq<Criterion> {
    TextCriteria(q) + DateCriteria(d, q) + FlagCriteria(q)
  }

  function Join(parts: seq<string>): string {
    if parts == [] then ""
    else if |parts| == 1 then parts[0]
    else parts[0] + " " + Join(parts[1..])
  }

  function PrintAll(cs: seq<Criterion>): seq<string> {
    seq(|cs|, i requires 0 <= i < |cs| => Print(cs[i]))
  }

  datatype SearchError = InvalidSince | InvalidBefore

  // parts.push(format!("KEY {}", imap_quote(v))) for a value that is set.
  method PushText(parts: seq<string>, key: string, v: Option<string>, ghost cs: seq<Criterion>)
    returns (out: seq<string>)
    requires parts == PrintAll(cs)
    ensures out == PrintAll(cs + TextOf(key, v))
  {
    out := parts;
    if v.Some? {
      var quoted := ImapQuote(v.value);
      out := out + [key + " " + quoted];
    } else {
      assert cs + [] == cs;
    }
  }

  method PushDate(d: Dates, parts: seq<string>, key: string, v: Option<string>, ghost cs: seq<Criterion>)
    returns (r: Result<seq<string>, ()>)
    requires parts == PrintAll(cs)
    ensures r == if BadDate(d, v) then Err(()) else Ok(PrintAll(cs + DateOf(d, key, v)))
  {
    if v.None? {
      assert cs + [] == cs;
      return Ok(parts);
    }
    var date := d.render(v.value);
    if date.None? {
      return Err(());
    }
    var out := parts + [key + " " + date.value];
    assert out == PrintAll(cs + [Date(key, date.value)]);
    return Ok(out);
  }

  method PushFlag(parts: seq<string>, key: string, v: Option<bool>, ghost cs: seq<Criterion>)
    returns (out: seq<string>)
    requires parts == PrintAll(cs)
    ensures out == PrintAll(cs + FlagOf(key, v))
  {
    out := parts;
    if v == Some(true) {
      out := out + [key];
    } else {
      assert cs + [] == cs;
    }
  }

  method TextParts(q: SearchQuery) returns (parts: seq<string>)
    ensures parts == PrintAll(TextCriteria(q))
  {
    parts := [];
    ghost var cs: seq<Criterion> := [];
    parts := PushText(parts, "FROM", q.from, cs);
    cs := TextOf("FROM", q.from);
    assert [] + cs == cs;
    var domain: Option<string> := None;
    if q.fromDomain.Some? {
      var trimmed := TrimAt(Trim(q.fromDomain.value));
      if trimmed != "" {
        domain := Some("@" + trimmed);
      }
    }
    assert TextOf("FROM", domain) == DomainOf(q.fromDomain);
    parts := PushText(parts, "FROM", domain, cs);
    cs := cs + DomainOf(q.fromDomain);
    parts := PushText(parts, "TO", q.to, cs);
    cs := cs + TextOf("TO", q.to);
    parts := PushText(parts, "SUBJECT", q.subject, cs);
    cs := cs + TextOf("SUBJECT", q.subject);
    parts := PushText(parts, "BODY", q.body, cs);
  }

  method FlagParts(before: seq<string>, q: SearchQuery, ghost cs: seq<Criterion>) returns (parts: seq<string>)
    requires before == PrintAll(cs)
    ensures parts == PrintAll(cs + FlagCriteria(q))
  {
    ghost var unseen, seen := FlagOf("UNSEEN", q.unseen), FlagOf("SEEN", q.seen);
    parts := PushFlag(before, "UNSEEN", q.unseen, cs);
    parts := PushFlag(parts, "SEEN", q.seen, cs + unseen);
    var marker := if q.hasAttachments == Some(true) then Some("multipart/") else None;
    parts := PushText(parts, "BODY", marker, cs + unseen + seen);
    Assoc(cs, unseen, seen);
    Assoc(cs, unseen + seen, TextOf("BODY", marker));
  }

  method PrintQuery(d: Dates, q: SearchQuery) returns (r: Result<string, SearchError>)
    ensures r == if BadDate(d, q.since) then Err(InvalidSince)
                 else if BadDate(d, q.before) then Err(InvalidBefore)
                 else Ok(if Criteria(d, q) == [] then "ALL" else Join(PrintAll(Criteria(d, q))))
  {
    ghost var cs := TextCriteria(q);
    var parts := TextParts(q);
    var since := PushDate(d, parts, "SINCE", q.since, cs);
    if since.Err? {
      return Err(InvalidSince);
    }
    var before := PushDate(d, since.value, "BEFORE", q.before, cs + DateOf(d, "SINCE", q.since));
    if before.Err? {
      return Err(InvalidBefore);
    }
    Assoc(cs, DateOf(d, "SINCE", q.since), DateOf(d, "BEFORE", q.before));
    parts := FlagParts(before.value, q, cs + DateCriteria(d, q));
    assert |parts| == |Criteria(d, q)|;
    if parts == [] {
      return Ok("ALL");
    }
    return Ok(Join(parts));
  }

  // --- What a reader makes of a query ---

  function CriterionTokens(c: Criterion): seq<Token> {
    match c
    case Flag(key) => [Word(key)]
    case Text(key, value) => [Word(key), Space, Quoted(Flatten(value))]
    case Date(key, date) => [Word(key), Space, Word(date)]
  }

  function AllTokens(cs: seq<Criterion>): seq<Token> {
    if cs == [] then []
    else if |cs| == 1 then CriterionTokens(cs[0])
    else CriterionTokens(cs[0]) + ([Space] + AllTokens(cs[1..]))
  }

  predicate Printable(c: Criterion) {
    IsAtom(c.key) && (c.Date? ==> IsAtom(c.date))
  }

  // Its value, if it has one, may stand in a quoted string.
  predicate Sendable(c: Criterion) {
    c.Text? ==> SevenBit(c.value)
  }

  predicate AllSendable(cs: seq<Criterion>) {
    forall c :: c in cs ==> Sendable(c)
  }

  lemma TokensSpace(rest: string)
    ensures Tokens(" " + rest) == Cons(Space, Tokens(rest))
  {
    assert (" " + rest)[1..] == rest;
  }

  // An atom, a space, and whatever follows.
  lemma TokensKey(key: string, rest: string)
    requires IsAtom(key)
    ensures Tokens(key + (" " + rest)) == Cons(Word(key), Cons(Space, Tokens(rest)))
  {
    TokensWord(key, " " + rest);
    TokensSpace(rest);
  }

  lemma Regroup(a: string, b: string, c: string, d: string)
    ensures a + b + c + d == a + (b + (c + d))
  {
  }

  lemma PrintText(key: string, value: string, rest: string)
    requires IsAtom(key)
    ensures Tokens(Print(Text(key, value)) + rest)
         == if SevenBit(value) then Cons(Word(key), Cons(Space, Cons(Quoted(Flatten(value)), Tokens(rest)))) else None
  {
    TokensQuoted(value, rest);
    TokensKey(key, Quote(value) + rest);
    Regroup(key, " ", Quote(value), rest);
  }

  lemma PrintDate(key: string, date: string, rest: string)
    requires IsAtom(key) && IsAtom(date) && (rest == "" || rest[0] == ' ')
    ensures Tokens(Print(Date(key, date)) + rest) == Cons(Word(key), Cons(Space, Cons(Word(date), Tokens(rest))))
  {
    TokensWord(date, rest);
    TokensKey(key, date + rest);
    Regroup(key, " ", date, rest);
  }

  lemma ConsThrice(a: Token, b: Token, c: Token, rest: Option<seq<Token>>)
    ensures Cons(a, Cons(b, Cons(c, rest))) == match rest case None => None case Some(ts) => Some([a, b, c] + ts)
  {
    if rest.Some? {
      assert [a] + ([b] + ([c] + rest.value)) == [a, b, c] + rest.value;
    }
  }

  lemma PrintTokens(c: Criterion, rest: string)
    requires Printable(c) && (rest == "" || rest[0] == ' ')
    ensures Tokens(Print(c) + rest)
         == if !Sendable(c) then None
            else match Tokens(rest) case None => None case Some(ts) => Some(CriterionTokens(c) + ts)
  {
    match c
    case Flag(key) => TokensWord(key, rest);
    case Text(key, value) => {
      PrintText(key, value, rest);
      ConsThrice(Word(key), Space, Quoted(Flatten(value)), Tokens(rest));
    }
    case Date(key, date) => {
      PrintDate(key, date, rest);
      ConsThrice(Word(key), Space, Word(date), Tokens(rest));
    }
  }

  lemma JoinMore(cs: seq<Criterion>)
    requires |cs| > 1
    ensures Join(PrintAll(cs)) == Print(cs[0]) + (" " + Join(PrintAll(cs[1..])))
  {
    assert PrintAll(cs)[1..] == PrintAll(cs[1..]);
  }

  lemma AllSendableCons(cs: seq<Criterion>)
    requires cs != []
    ensures AllSendable(cs) <==> Sendable(cs[0]) && AllSendable(cs[1..])
  {
    assert cs == [cs[0]] + cs[1..];
  }

  lemma {:induction false} JoinTokens(cs: seq<Criterion>)
    requires Readable(cs)
    ensures Tokens(Join(PrintAll(cs))) == if AllSendable(cs) then Some(AllTokens(cs)) else None
  {
    if |cs| == 1 {
      AllSendableCons(cs);
      assert cs[1..] == [];
      assert Print(cs[0]) + "" == Print(cs[0]);
      assert CriterionTokens(cs[0]) + [] == CriterionTokens(cs[0]);
      PrintTokens(cs[0], "");
    } else if cs != [] {
      AllSendableCons(cs);
      JoinTokens(cs[1..]);
      JoinMore(cs);
      TokensSpace(Join(PrintAll(cs[1..])));
      PrintTokens(cs[0], " " + Join(PrintAll(cs[1..])));
    }
  }

  // Criteria whose keys a reader knows and whose words read as words.
  ghost predicate Readable(cs: seq<Criterion>) {
    forall c :: c in cs ==> Printable(c) && KnownKey(c)
  }

  lemma ReadableConcat(a: seq<Criterion>, b: seq<Criterion>)
    requires Readable(a) && Readable(b)
    ensures Readable(a + b)
  {
  }

  lemma KeysAreAtoms()
    ensures IsAtom("FROM") && IsAtom("TO") && IsAtom("SUBJECT") && IsAtom("BODY")
    ensures IsAtom("SINCE") && IsAtom("BEFORE") && IsAtom("UNSEEN") && IsAtom("SEEN") && IsAtom("ALL")
  {
  }

  lemma TextCriteriaReadable(q: SearchQuery)
    ensures Readable(TextCriteria(q))
  {
    KeysAreAtoms();
    var a, b, c := TextOf("FROM", q.from), DomainOf(q.fromDomain), TextOf("TO", q.to);
    var d, e := TextOf("SUBJECT", q.subject), TextOf("BODY", q.body);
    ReadableConcat(a, b);
    ReadableConcat(a + b, c);
    ReadableConcat(a + b + c, d);
    ReadableConcat(a + b + c + d, e);
  }

  lemma CriteriaReadable(d: Dates, q: SearchQuery)
    requires d.Lawful()
    ensures Readable(Criteria(d, q))
  {
    KeysAreAtoms();
    TextCriteriaReadable(q);
    ReadableConcat(DateOf(d, "SINCE", q.since), DateOf(d, "BEFORE", q.before));
    ReadableConcat(FlagOf("UNSEEN", q.unseen), FlagOf("SEEN", q.seen));
    assert Readable(FlagCriteria(q));
    ReadableConcat(TextCriteria(q), DateCriteria(d, q));
    ReadableConcat(TextCriteria(q) + DateCriteria(d, q), FlagCriteria(q));
  }

  // A criterion as its reader has it.
  function Received(c: Criterion): Criterion {
    if c.Text? then Text(c.key, Flatten(c.value)) else c
  }

  // search-key *(SP search-key): the text keys take a quoted string behind a space,
  // the date keys an atom.
  function ReadCriteria(ts: seq<Token>): Option<seq<Criterion>> {
    if ts == [] || !ts[0].Word? then None
    else
      var key := ts[0].text;
      if key in {"FROM", "TO", "SUBJECT", "BODY"} then
        if |ts| >= 3 && ts[1] == Space && ts[2].Quoted? then Prepend(Text(key, ts[2].text), ReadMore(ts[3..])) else None
      else if key in {"SINCE", "BEFORE"} then
        if |ts| >= 3 && ts[1] == Space && ts[2].Word? then Prepend(Date(key, ts[2].text), ReadMore(ts[3..])) else None
      else if key in {"UNSEEN", "SEEN", "ALL"} then Prepend(Flag(key), ReadMore(ts[1..]))
      else None
  }

  function ReadMore(ts: seq<Token>): Option<seq<Criterion>> {
    if ts == [] then Some([])
    else if ts[0] == Space then ReadCriteria(ts[1..])
    else None
  }

  function ReadQuery(s: string): Option<seq<Criterion>> {
    match Tokens(s) case None => None case Some(ts) => ReadCriteria(ts)
  }

  function Prepend(c: Criterion, rest: Option<seq<Criterion>>): Option<seq<Criterion>> {
    match rest case None => None case Some(cs) => Some([c] + cs)
  }

  predicate KnownKey(c: Criterion) {
    match c
    case Flag(key) => key in {"UNSEEN", "SEEN", "ALL"}
    case Text(key, _) => key in {"FROM", "TO", "SUBJECT", "BODY"}
    case Date(key, _) => key in {"SINCE", "BEFORE"}
  }

  function ReceivedAll(cs: seq<Criterion>): seq<Criterion> {
    if cs == [] then [] else [Received(cs[0])] + ReceivedAll(cs[1..])
  }

  lemma {:induction false} ReadAll(cs: seq<Criterion>)
    requires Readable(cs) && cs != []
    ensures ReadCriteria(AllTokens(cs)) == Some(ReceivedAll(cs))
  {
    if |cs| == 1 {
      assert CriterionTokens(cs[0]) + [] == CriterionTokens(cs[0]);
      ReadOne(cs[0], []);
      assert cs[1..] == [];
      assert ReceivedAll(cs[1..]) == [];
    } else {
      ReadAll(cs[1..]);
      var rest := [Space] + AllTokens(cs[1..]);
      assert rest[1..] == AllTokens(cs[1..]);
      ReadOne(cs[0], rest);
    }
  }

  lemma ReadOne(c: Criterion, rest: seq<Token>)
    requires KnownKey(c)
    ensures ReadCriteria(CriterionTokens(c) + rest) == Prepend(Received(c), ReadMore(rest))
  {
    var mine := CriterionTokens(c);
    assert (mine + rest)[|mine|..] == rest;
  }

  // --- The round trip ---

  // Every value the query sets is 7-bit text without NUL; of a domain, what is left
  // of it once blanks and @ are gone.
  predicate SevenBitQuery(q: SearchQuery) {
    SevenBitValue(q.from) && SevenBitValue(q.to) && SevenBitValue(q.subject) && SevenBitValue(q.body)
    && (q.fromDomain.Some? ==> SevenBit(TrimAt(Trim(q.fromDomain.value))))
  }

  // Field by field, and character by character.
  lemma SevenBitQueryIs(q: SearchQuery)
    ensures SevenBitQuery(q) <==>
      (q.from.Some? ==> SevenBit(q.from.value)) && (q.to.Some? ==> SevenBit(q.to.value))
      && (q.subject.Some? ==> SevenBit(q.subject.value)) && (q.body.Some? ==> SevenBit(q.body.value))
      && (q.fromDomain.Some? ==> SevenBit(TrimAt(Trim(q.fromDomain.value))))
    ensures forall s :: SevenBit(s) <==> forall i :: 0 <= i < |s| ==> 1 <= s[i] as int && s[i] as int <= 127
  {
  }

  predicate SevenBitValue(v: Option<string>) {
    v.Some? ==> SevenBit(v.value)
  }

  lemma SendableParts(q: SearchQuery)
    ensures SevenBitValue(q.from) <==> AllSendable(TextOf("FROM", q.from))
    ensures SevenBitValue(q.to) <==> AllSendable(TextOf("TO", q.to))
    ensures SevenBitValue(q.subject) <==> AllSendable(TextOf("SUBJECT", q.subject))
    ensures SevenBitValue(q.body) <==> AllSendable(TextOf("BODY", q.body))
    ensures q.fromDomain.Some? ==>
      (SevenBit(TrimAt(Trim(q.fromDomain.value))) <==> AllSendable(DomainOf(q.fromDomain)))
  {
    SendableText("FROM", q.from);
    SendableText("TO", q.to);
    SendableText("SUBJECT", q.subject);
    SendableText("BODY", q.body);
    if q.fromDomain.Some? {
      var t := TrimAt(Trim(q.fromDomain.value));
      var v := "@" + t;
      SevenBitCons(v);
      assert v[1..] == t;
      SendableText("FROM", Some(v));
    }
  }

  lemma SendableText(key: string, v: Option<string>)
    ensures SevenBitValue(v) <==> AllSendable(TextOf(key, v))
  {
    if v.Some? {
      assert Text(key, v.value) in TextOf(key, v);
    }
  }

  lemma AllSendableConcat(a: seq<Criterion>, b: seq<Criterion>)
    ensures AllSendable(a + b) <==> AllSendable(a) && AllSendable(b)
  {
    assert forall c :: c in a ==> c in a + b;
    assert forall c :: c in b ==> c in a + b;
  }

  lemma SendableTexts(q: SearchQuery)
    ensures AllSendable(TextCriteria(q)) <==> SevenBitQuery(q)
  {
    SendableParts(q);
    var a, b, c := TextOf("FROM", q.from), DomainOf(q.fromDomain), TextOf("TO", q.to);
    var e, f := TextOf("SUBJECT", q.subject), TextOf("BODY", q.body);
    AllSendableConcat(a, b);
    AllSendableConcat(a + b, c);
    AllSendableConcat(a + b + c, e);
    AllSendableConcat(a + b + c + e, f);
  }

  lemma SendableExactly(d: Dates, q: SearchQuery)
    ensures AllSendable(Criteria(d, q)) <==> SevenBitQuery(q)
  {
    SendableTexts(q);
    DatesSendable(d, q);
    FlagsSendable(q);
    AllSendableConcat(TextCriteria(q), DateCriteria(d, q));
    AllSendableConcat(TextCriteria(q) + DateCriteria(d, q), FlagCriteria(q));
  }

  lemma DatesSendable(d: Dates, q: SearchQuery)
    ensures AllSendable(DateCriteria(d, q))
  {
    forall c | c in DateCriteria(d, q) ensures c.Date? {
      assert c in DateOf(d, "SINCE", q.since) || c in DateOf(d, "BEFORE", q.before);
    }
  }

  // The one text criterion among them is a constant.
  lemma FlagsSendable(q: SearchQuery)
    ensures AllSendable(FlagCriteria(q))
  {
    AllSendableConcat(FlagOf("UNSEEN", q.unseen), FlagOf("SEEN", q.seen));
  }

  // A reader of the printed query finds exactly the criteria the query sets, in order,
  // with line breaks in values turned into spaces, exactly when every value is 7-bit
  // text without NUL; otherwise the query does not read at all. Either way no value
  // ends its string early or starts another criterion.
  lemma SearchRoundTrip(d: Dates, q: SearchQuery, text: string)
    requires d.Lawful()
    requires text == if Criteria(d, q) == [] then "ALL" else Join(PrintAll(Criteria(d, q)))
    ensures ReadQuery(text)
         == if !SevenBitQuery(q) then None
            else Some(if Criteria(d, q) == [] then [Flag("ALL")] else ReceivedAll(Criteria(d, q)))
  {
    SendableExactly(d, q);
    KeysAreAtoms();
    if Criteria(d, q) == [] {
      assert "ALL" + "" == "ALL";
      TokensWord("ALL", "");
      assert [Word("ALL")] + [] == [Word("ALL")];
      ReadOne(Flag("ALL"), []);
      assert CriterionTokens(Flag("ALL")) + [] == [Word("ALL")];
      var all: seq<Criterion> := [Flag("ALL")];
      assert all + [] == all;
    } else {
      CriteriaReadable(d, q);
      JoinTokens(Criteria(d, q));
      ReadAll(Criteria(d, q));
    }
  }

  // --- The query ---

  lemma FlattenIs(s: string)
    ensures |Flatten(s)| == |s|
    ensures forall i :: 0 <= i < |s| ==> Flatten(s)[i] == if s[i] == '\r' || s[i] == '\n' then ' ' else s[i]
  {
  }

  lemma FlattenPlain(s: string)
    requires '\r' !in s && '\n' !in s
    ensures Flatten(s) == s
  {
    FlattenIs(s);
  }

  lemma {:induction false} ReceivedConcat(a: seq<Criterion>, b: seq<Criterion>)
    ensures ReceivedAll(a + b) == ReceivedAll(a) + ReceivedAll(b)
  {
    if a == [] {
      assert a + b == b;
    } else {
      assert (a + b)[1..] == a[1..] + b;
      ReceivedConcat(a[1..], b);
    }
  }

  lemma ReceivedText(key: string, v: Option<string>)
    ensures ReceivedAll(TextOf(key, v)) == if v.Some? then [Text(key, Flatten(v.value))] else []
  {
    if v.Some? {
      var one := [Text(key, v.value)];
      assert one[1..] == [] && [Received(one[0])] + [] == [Received(one[0])];
    }
  }

  lemma ReceivedTexts(q: SearchQuery)
    ensures var domain := if q.fromDomain.Some? then TrimAt(Trim(q.fromDomain.value)) else "";
      ReceivedAll(TextCriteria(q))
      == (if q.from.Some? then [Text("FROM", Flatten(q.from.value))] else [])
         + (if domain != "" then [Text("FROM", Flatten("@" + domain))] else [])
         + (if q.to.Some? then [Text("TO", Flatten(q.to.value))] else [])
         + (if q.subject.Some? then [Text("SUBJECT", Flatten(q.subject.value))] else [])
         + (if q.body.Some? then [Text("BODY", Flatten(q.body.value))] else [])
  {
    var domain := if q.fromDomain.Some? then TrimAt(Trim(q.fromDomain.value)) else "";
    var behindAt := if domain == "" then None else Some("@" + domain);
    assert DomainOf(q.fromDomain) == TextOf("FROM", behindAt);
    var a, b, c := TextOf("FROM", q.from), TextOf("FROM", behindAt), TextOf("TO", q.to);
    var e, f := TextOf("SUBJECT", q.subject), TextOf("BODY", q.body);
    ReceivedConcat(a + b + c + e, f);
    ReceivedConcat(a + b + c, e);
    ReceivedConcat(a + b, c);
    ReceivedConcat(a, b);
    ReceivedText("FROM", q.from);
    ReceivedText("FROM", behindAt);
    ReceivedText("TO", q.to);
    ReceivedText("SUBJECT", q.subject);
    ReceivedText("BODY", q.body);
  }

  lemma ReceivedDate(d: Dates, key: string, v: Option<string>)
    requires !BadDate(d, v)
    ensures ReceivedAll(DateOf(d, key, v)) == if v.Some? then [Date(key, d.render(v.value).value)] else []
  {
    if v.Some? {
      var one := [Date(key, d.render(v.value).value)];
      assert one[1..] == [] && [Received(one[0])] + [] == [Received(one[0])];
    }
  }

  lemma ReceivedDates(d: Dates, q: SearchQuery)
    requires !BadDate(d, q.since) && !BadDate(d, q.before)
    ensures ReceivedAll(DateCriteria(d, q))
         == (if q.since.Some? then [Date("SINCE", d.render(q.since.value).value)] else [])
            + (if q.before.Some? then [Date("BEFORE", d.render(q.before.value).value)] else [])
  {
    ReceivedConcat(DateOf(d, "SINCE", q.since), DateOf(d, "BEFORE", q.before));
    ReceivedDate(d, "SINCE", q.since);
    ReceivedDate(d, "BEFORE", q.before);
  }

  lemma ReceivedFlag(key: string, v: Option<bool>)
    ensures ReceivedAll(FlagOf(key, v)) == if v == Some(true) then [Flag(key)] else []
  {
    if v == Some(true) {
      var one := [Flag(key)];
      assert one[1..] == [] && [Received(one[0])] + [] == [Received(one[0])];
    }
  }

  // The marker has no line breaks to lose.
  lemma MarkerPlain()
    ensures Flatten("multipart/") == "multipart/"
  {
    FlattenPlain("multipart/");
  }

  lemma ReceivedMarker()
    ensures ReceivedAll([Text("BODY", "multipart/")]) == [Text("BODY", "multipart/")]
  {
    MarkerPlain();
    ReceivedText("BODY", Some("multipart/"));
  }

  lemma ReceivedFlags(q: SearchQuery)
    ensures ReceivedAll(FlagCriteria(q))
         == (if q.unseen == Some(true) then [Flag("UNSEEN")] else [])
            + (if q.seen == Some(true) then [Flag("SEEN")] else [])
            + (if q.hasAttachments == Some(true) then [Text("BODY", "multipart/")] else [])
  {
    var marker := if q.hasAttachments == Some(true) then [Text("BODY", "multipart/")] else [];
    ReceivedConcat(FlagOf("UNSEEN", q.unseen) + FlagOf("SEEN", q.seen), marker);
    ReceivedConcat(FlagOf("UNSEEN", q.unseen), FlagOf("SEEN", q.seen));
    ReceivedFlag("UNSEEN", q.unseen);
    ReceivedFlag("SEEN", q.seen);
    ReceivedMarker();
  }

  lemma ReceivedCriteria(d: Dates, q: SearchQuery)
    ensures ReceivedAll(Criteria(d, q))
         == ReceivedAll(TextCriteria(q)) + ReceivedAll(DateCriteria(d, q)) + ReceivedAll(FlagCriteria(q))
    ensures ReceivedAll(Criteria(d, q)) == [] <==> Criteria(d, q) == []
  {
    ReceivedConcat(TextCriteria(q) + DateCriteria(d, q), FlagCriteria(q));
    ReceivedConcat(TextCriteria(q), DateCriteria(d, q));
  }

  method BuildSearchAtoms(d: Dates, q: SearchQuery) returns (r: Result<string, SearchError>)
    ensures r == if q.since.Some? && d.render(q.since.value).None? then Err(InvalidSince)
                 else if q.before.Some? && d.render(q.before.value).None? then Err(InvalidBefore)
                 else Ok(if Criteria(d, q) == [] then "ALL" else Join(PrintAll(Criteria(d, q))))
    // A reader gets the query unless some value is not 7-bit text without NUL ...
    ensures r.Ok? && d.Lawful() ==>
      (ReadQuery(r.value).Some? <==> SevenBitQuery(q))
    // ... and then it finds each field under its own key, in this order, and nothing else.
    ensures r.Ok? && d.Lawful() && ReadQuery(r.value).Some? ==>
      var domain := if q.fromDomain.Some? then TrimAt(Trim(q.fromDomain.value)) else "";
      var texts :=
        (if q.from.Some? then [Text("FROM", Flatten(q.from.value))] else [])
        + (if domain != "" then [Text("FROM", Flatten("@" + domain))] else [])
        + (if q.to.Some? then [Text("TO", Flatten(q.to.value))] else [])
        + (if q.subject.Some? then [Text("SUBJECT", Flatten(q.subject.value))] else [])
        + (if q.body.Some? then [Text("BODY", Flatten(q.body.value))] else []);
      var dates :=
        (if q.since.Some? then [Date("SINCE", d.render(q.since.value).value)] else [])
        + (if q.before.Some? then [Date("BEFORE", d.render(q.before.value).value)] else []);
      var flags :=
        (if q.unseen == Some(true) then [Flag("UNSEEN")] else [])
        + (if q.seen == Some(true) then [Flag("SEEN")] else [])
        + (if q.hasAttachments == Some(true) then [Text("BODY", "multipart/")] else []);
      var all := texts + dates + flags;
      ReadQuery(r.value) == Some(if all == [] then [Flag("ALL")] else all)
  {
    r := PrintQuery(d, q);
    if r.Ok? && d.Lawful() {
      SearchRoundTrip(d, q, r.value);
      ReceivedTexts(q);
      ReceivedDates(d, q);
      ReceivedFlags(q);
      ReceivedCriteria(d, q);
    }
  }

  // One such value: a name with an accent.
  lemma AccentUnreadable(d: Dates, q: SearchQuery)
    requires d.Lawful() && q.from == Some("Ren\U{E9}")
    ensures ReadQuery(Join(PrintAll(Criteria(d, q)))) == None
  {
    assert |Criteria(d, q)| >= |TextOf("FROM", q.from)| == 1;
    assert !IsChar("Ren\U{E9}"[3]);
    SearchRoundTrip(d, q, Join(PrintAll(Criteria(d, q))));
  }

  // --- format_label_list ---

  predicate NeedsQuote(l: string) {
    l == "" || exists i :: 0 <= i < |l| && QuoteChar(l[i])
  }

  predicate QuoteChar(c: char) {
    IsWhitespace(c) || c == '(' || c == ')' || c == '"' || c == '\\'
  }

  // replace('\\', "\\\\").replace('"', "\\\""): line breaks stay.
  function EscapeLabel(l: string): string {
    if l == "" then "" else EscapeLabelChar(l[0]) + EscapeLabel(l[1..])
  }

  function EscapeLabelChar(c: char): string {
    if c == '\\' || c == '"' then ['\\', c] else [c]
  }

  function FormatLabel(l: string): string {
    if NeedsQuote(l) then "\"" + EscapeLabel(l) + "\"" else l
  }

  function FormatAll(ls: seq<string>): seq<string> {
    if ls == [] then [] else [FormatLabel(ls[0])] + FormatAll(ls[1..])
  }

  function FormatLabelList(ls: seq<string>): string {
    if ls == [] then "" else "(" + Join(FormatAll(ls)) + ")"
  }

  // What a reader can take: unquoted it must be an astring, quoted it must hold
  // nothing but TEXT-CHARs.
  predicate LabelReadable(l: string) {
    forall i :: 0 <= i < |l| ==> if NeedsQuote(l) then TextChar(l[i]) else AstringChar(l[i])
  }

  predicate AllReadable(ls: seq<string>) {
    forall i :: 0 <= i < |ls| ==> LabelReadable(ls[i])
  }

  // A label goes out in quotes exactly when it is empty or holds a blank, a parenthesis, a
  // quote or a backslash.
  lemma QuotedExactly(l: string)
    ensures var quoted :=
        l == "" || exists i :: 0 <= i < |l| && (IsWhitespace(l[i]) || l[i] in {'(', ')', '"', '\\'});
      NeedsQuote(l) == quoted && FormatLabel(l) == if quoted then "\"" + EscapeLabel(l) + "\"" else l
  {
    assert forall i :: 0 <= i < |l| ==> (QuoteChar(l[i]) <==> IsWhitespace(l[i]) || l[i] in {'(', ')', '"', '\\'});
  }

  // In quotes it may hold what a quoted string may. Without them it must be printable
  // ASCII without the brace and the list wildcards.
  lemma ReadableExactly(l: string)
    ensures NeedsQuote(l) ==>
      (LabelReadable(l) <==> forall i :: 0 <= i < |l| ==> 1 <= l[i] as int <= 127 && l[i] !in {'\r', '\n'})
    ensures !NeedsQuote(l) ==>
      (LabelReadable(l) <==> forall i :: 0 <= i < |l| ==> '!' <= l[i] <= '~' && l[i] !in {'{', '%', '*'})
  {
    forall i | 0 <= i < |l|
      ensures TextChar(l[i]) <==> 1 <= l[i] as int <= 127 && l[i] !in {'\r', '\n'}
      ensures !QuoteChar(l[i]) ==> (AstringChar(l[i]) <==> '!' <= l[i] <= '~' && l[i] !in {'{', '%', '*'})
    {
      if !QuoteChar(l[i]) {
        UnquotedChar(l[i]);
      }
    }
  }

  lemma UnquotedChar(c: char)
    requires !QuoteChar(c)
    ensures AstringChar(c) <==> '!' <= c <= '~' && c !in {'{', '%', '*'}
  {
  }

  function LabelToken(l: string): Token {
    if NeedsQuote(l) then Quoted(l) else Word(l)
  }

  // astring *(SP astring) ")"
  function LabelTokens(ls: seq<string>): seq<Token>
    requires ls != []
  {
    if |ls| == 1 then [LabelToken(ls[0]), Close] else [LabelToken(ls[0]), Space] + LabelTokens(ls[1..])
  }

  predicate AllText(l: string) {
    forall i :: 0 <= i < |l| ==> TextChar(l[i])
  }

  lemma AllTextCons(l: string)
    requires l != ""
    ensures AllText(l) <==> TextChar(l[0]) && AllText(l[1..])
    ensures l == [l[0]] + l[1..]
  {
    assert forall i :: 0 < i < |l| ==> l[i] == l[1..][i - 1];
  }

  lemma {:induction false} LexLabel(l: string, rest: string)
    ensures LexQuoted(EscapeLabel(l) + "\"" + rest) == if AllText(l) then Some((l, rest)) else None
  {
    if l == "" {
      assert "" + "\"" + rest == "\"" + rest;
      assert ("\"" + rest)[1..] == rest;
    } else {
      LexLabel(l[1..], rest);
      var tail := EscapeLabel(l[1..]) + "\"" + rest;
      LexLabelChar(l[0], tail);
      AllTextCons(l);
      FirstApart(EscapeLabelChar(l[0]), EscapeLabel(l[1..]), "\"", rest);
    }
  }

  lemma LexLabelChar(c: char, tail: string)
    ensures LexQuoted(EscapeLabelChar(c) + tail)
         == if !TextChar(c) then None else
            match LexQuoted(tail) case None => None case Some((text, rest)) => Some(([c] + text, rest))
  {
    var s := EscapeLabelChar(c) + tail;
    assert s[|EscapeLabelChar(c)|..] == tail;
  }

  lemma TokensQuotedLabel(l: string, rest: string)
    ensures Tokens("\"" + EscapeLabel(l) + "\"" + rest)
         == if AllText(l) then Cons(Quoted(l), Tokens(rest)) else None
  {
    LexLabel(l, rest);
    var text := "\"" + EscapeLabel(l) + "\"" + rest;
    assert text[1..] == EscapeLabel(l) + "\"" + rest;
  }

  // An unquoted label with a character that fits no token.
  lemma TokensBadWord(l: string, rest: string)
    requires !NeedsQuote(l) && !LabelReadable(l)
    ensures Tokens(l + rest) == None
  {
    var s := l + rest;
    var n := WordLength(s);
    assert forall i :: 0 <= i < |l| ==> s[i] == l[i];
    assert n < |l| by {
      var i :| 0 <= i < |l| && !AstringChar(l[i]);
      assert !AstringChar(s[i]);
    }
    assert !QuoteChar(l[0]) && !QuoteChar(l[n]);
    var bad := s[n..];
    assert bad[0] == l[n] && Tokens(bad) == None;
  }

  lemma TokensLabel(l: string, rest: string)
    requires rest != "" && (rest[0] == ' ' || rest[0] == ')')
    ensures Tokens(FormatLabel(l) + rest) == if LabelReadable(l) then Cons(LabelToken(l), Tokens(rest)) else None
  {
    if NeedsQuote(l) {
      TokensQuotedLabel(l, rest);
    } else if LabelReadable(l) {
      TokensWord(l, rest);
    } else {
      TokensBadWord(l, rest);
    }
  }

  lemma AllReadableCons(ls: seq<string>)
    requires ls != []
    ensures AllReadable(ls) <==> LabelReadable(ls[0]) && AllReadable(ls[1..])
  {
    assert forall i :: 0 < i < |ls| ==> ls[i] == ls[1..][i - 1];
  }

  lemma TokensClose()
    ensures Tokens(")") == Some([Close])
  {
    assert ")"[1..] == "";
    assert Tokens("") == Some([]);
    assert [Close] + [] == [Close];
  }

  lemma {:induction false} TokensLabels(ls: seq<string>)
    requires ls != []
    ensures Tokens(Join(FormatAll(ls)) + ")") == if AllReadable(ls) then Some(LabelTokens(ls)) else None
  {
    AllReadableCons(ls);
    if |ls| == 1 {
      TokensClose();
      TokensLabel(ls[0], ")");
      assert [LabelToken(ls[0])] + [Close] == [LabelToken(ls[0]), Close];
    } else {
      TokensLabels(ls[1..]);
      var inner := Join(FormatAll(ls[1..])) + ")";
      TokensSpace(inner);
      TokensLabel(ls[0], " " + inner);
      FormatAllCons(ls);
      if AllReadable(ls) {
        assert [LabelToken(ls[0])] + ([Space] + LabelTokens(ls[1..])) == LabelTokens(ls);
      }
    }
  }

  lemma FormatAllCons(ls: seq<string>)
    requires |ls| > 1
    ensures Join(FormatAll(ls)) + ")" == FormatLabel(ls[0]) + (" " + (Join(FormatAll(ls[1..])) + ")"))
  {
    assert FormatAll(ls)[1..] == FormatAll(ls[1..]);
    assert FormatAll(ls[1..]) != [];
    Regroup(FormatLabel(ls[0]), " ", Join(FormatAll(ls[1..])), ")");
  }

  // "(" astring *(SP astring) ")" and nothing behind it.
  function ReadLabelList(s: string): Option<seq<string>> {
    match Tokens(s)
    case None => None
    case Some(ts) => if ts == [] || ts[0] != Open then None else ReadLabels(ts[1..])
  }

  function ReadLabels(ts: seq<Token>): Option<seq<string>> {
    if |ts| < 2 || !(ts[0].Word? || ts[0].Quoted?) then None
    else if ts[1] == Close then if |ts| == 2 then Some([ts[0].text]) else None
    else if ts[1] == Space then
      match ReadLabels(ts[2..]) case None => None case Some(more) => Some([ts[0].text] + more)
    else None
  }

  lemma {:induction false} ReadLabelTokens(ls: seq<string>)
    requires ls != []
    ensures ReadLabels(LabelTokens(ls)) == Some(ls)
  {
    if |ls| == 1 {
      assert [ls[0]] == ls;
    } else {
      ReadLabelTokens(ls[1..]);
      assert LabelTokens(ls)[2..] == LabelTokens(ls[1..]);
      assert [ls[0]] + ls[1..] == ls;
    }
  }

  // A nonempty label list reads back as its labels exactly when each of them is free
  // of the characters the printer looks for and an astring, or holds one of those (or
  // is empty) and is made of TEXT-CHARs; otherwise it does not read at all.
  lemma LabelListRoundTrip(ls: seq<string>)
    requires ls != []
    ensures ReadLabelList(FormatLabelList(ls)) == if AllReadable(ls) then Some(ls) else None
  {
    TokensLabels(ls);
    var inner := Join(FormatAll(ls)) + ")";
    assert FormatLabelList(ls) == "(" + inner;
    assert ("(" + inner)[1..] == inner;
    if AllReadable(ls) {
      assert ([Open] + LabelTokens(ls))[1..] == LabelTokens(ls);
      ReadLabelTokens(ls);
    }
  }

  // A brace goes out unquoted, where it opens a literal; so do the list wildcards, and
  // a line break goes out quoted, where none may stand.
  lemma UnreadableLabels()
    ensures ReadLabelList(FormatLabelList(["{5}"])) == None
    ensures ReadLabelList(FormatLabelList(["50%"])) == None
    ensures ReadLabelList(FormatLabelList(["a\nb"])) == None
  {
    var brace, percent, broken := ["{5}"], ["50%"], ["a\nb"];
    assert !LabelReadable(brace[0]) by {
      assert !AstringChar("{5}"[0]);
    }
    assert !LabelReadable(percent[0]) by {
      assert !AstringChar("50%"[2]);
    }
    assert !LabelReadable(broken[0]) by {
      assert QuoteChar("a\nb"[1]) && !TextChar("a\nb"[1]);
    }
    LabelListRoundTrip(brace);
    LabelListRoundTrip(percent);
    LabelListRoundTrip(broken);
  }
}
