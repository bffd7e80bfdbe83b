// The bytes behind the queue log of src/outbound_queue.rs: one JSON row a line,
// read back line by line. This is where a crash in the middle of a write shows.
module QueueFile {
  import opened Wrappers
  import opened Utf8
  import opened Text
  import opened QueueLog

  const NL: Byte := 10
  const CR: Byte := 13
  const OPEN_BRACE: Byte := 0x7B

  function Flat(pieces: seq<seq<Byte>>): seq<Byte> {
    if pieces == [] then [] else pieces[0] + Flat(pieces[1..])
  }

  // serde_json seen from outside: how a row is printed and how a line is parsed.
  datatype Codec = Codec(encode: Job -> seq<Byte>, parse: seq<Byte> -> Option<Job>) {
    // A one-line UTF-8 object that parses back.
    ghost predicate RowLawful(j: Job) {
      encode(j) != [] && encode(j)[0] == OPEN_BRACE && NL !in encode(j) && CR !in encode(j)
      && ValidUtf8(encode(j)) && parse(encode(j)) == Some(j)
    }

    // The first n bytes of a row, at least one.
    ghost predicate IsCut(p: seq<Byte>, j: Job, n: nat) {
      0 < n <= |encode(j)| && p == encode(j)[..n]
    }

    ghost predicate IsPiece(p: seq<Byte>) {
      exists j, n: nat :: IsCut(p, j, n)
    }

    ghost predicate Pieces(pieces: seq<seq<Byte>>) {
      forall i :: 0 <= i < |pieces| ==> IsPiece(pieces[i])
    }

    // Rows parse back; a row that is cut short does not parse, and neither do rows that
    // run into each other, cut short or not.
    ghost predicate Lawful() {
      (forall j: Job :: RowLawful(j))
      && (forall j: Job, n: nat :: 0 < n < |encode(j)| ==> parse(encode(j)[..n]) == None)
      && (forall pieces :: |pieces| >= 2 && Pieces(pieces) ==> parse(Flat(pieces)) == None)
    }
  }

  // --- Reading ---

  // Index of the first newline, or |f|.
  function NlIndex(f: seq<Byte>): (k: nat)
    ensures k <= |f| && NL !in f[..k] && (k < |f| ==> f[k] == NL)
  {
    if f == [] || f[0] == NL then 0
    else
      assert forall k: nat :: k <= |f[1..]| ==> f[..k + 1] == [f[0]] + f[1..][..k];
      1 + NlIndex(f[1..])
  }

  function StripCr(line: seq<Byte>): seq<Byte> {
    if line != [] && line[|line| - 1] == CR then line[..|line| - 1] else line
  }

  // tokio's Lines: a last line without its newline is still a line.
  function SplitLines(f: seq<Byte>): seq<seq<Byte>>
    decreases |f|
  {
    if f == [] then []
    else
      var k := NlIndex(f);
      if k == |f| then [f] else [StripCr(f[..k])] + SplitLines(f[k + 1..])
  }

  // Bytes of the White_Space character s starts with, or 0.
  function SpaceLen(s: seq<Byte>): (n: nat)
    ensures n <= |s|
  {
    if |s| >= 1 && (9 <= s[0] <= 13 || s[0] == 0x20) then 1
    else if |s| >= 2 && s[0] == 0xC2 && (s[1] == 0x85 || s[1] == 0xA0) then 2
    else if |s| >= 3 && ((s[0] == 0xE1 && s[1] == 0x9A && s[2] == 0x80)
                      || (s[0] == 0xE2 && s[1] == 0x80
                          && (0x80 <= s[2] <= 0x8A || 0xA8 <= s[2] <= 0xA9 || s[2] == 0xAF))
                      || (s[0] == 0xE2 && s[1] == 0x81 && s[2] == 0x9F)
                      || (s[0] == 0xE3 && s[1] == 0x80 && s[2] == 0x80)) then 3
    else 0
  }

  // line.trim().is_empty()
  predicate IsBlankLine(s: seq<Byte>)
    decreases |s|
  {
    s == [] || (SpaceLen(s) > 0 && IsBlankLine(s[SpaceLen(s)..]))
  }

  // Byte by byte that is the White_Space property of the character they encode.
  lemma SpaceLenEncoded(c: char, rest: seq<Byte>)
    ensures SpaceLen(Utf8Of(c) + rest) == if IsWhitespace(c) then |Utf8Of(c)| else 0
  {
  }

  // A line counts as blank exactly when all its characters are whitespace.
  lemma {:induction false} BlankExactly(s: string)
    ensures IsBlankLine(TextBytes(s)) <==> forall i :: 0 <= i < |s| ==> IsWhitespace(s[i])
  {
    if s != "" {
      var rest := TextBytes(s[1..]);
      BlankExactly(s[1..]);
      SpaceLenEncoded(s[0], rest);
      assert (Utf8Of(s[0]) + rest)[|Utf8Of(s[0])|..] == rest;
      assert forall i :: 0 < i < |s| ==> s[i] == s[1..][i - 1];
    }
  }

  // A line is read back from either line ending, and the last one also without.
  lemma LineEndings(line: seq<Byte>, rest: seq<Byte>)
    requires NL !in line
    ensures SplitLines(line + [CR] + [NL] + rest) == [line] + SplitLines(rest)
    ensures line == [] || line[|line| - 1] != CR ==> SplitLines(line + [NL] + rest) == [line] + SplitLines(rest)
    ensures line != [] ==> SplitLines(line) == [line]
  {
    SplitUnfold(line + [CR] + [NL] + rest, line + [CR], rest);
    assert (line + [CR])[..|line|] == line;
    SplitUnfold(line + [NL] + rest, line, rest);
    assert line[..|line|] == line;
    NlIndexIs(line, |line|);
  }

  // The lines a reader looks at; None is the InvalidData error a line that is not
  // UTF-8 ends the whole read with.
  function NonBlank(lines: seq<seq<Byte>>): Option<seq<seq<Byte>>> {
    if lines == [] then Some([])
    else if !ValidUtf8(lines[0]) then None
    else
      match NonBlank(lines[1..])
      case None => None
      case Some(rest) => Some(if IsBlankLine(lines[0]) then rest else [lines[0]] + rest)
  }

  // Lines that do not parse are logged and skipped.
  function ParseAll(c: Codec, lines: seq<seq<Byte>>): seq<Job> {
    if lines == [] then []
    else
      match c.parse(lines[0])
      case None => ParseAll(c, lines[1..])
      case Some(j) => [j] + ParseAll(c, lines[1..])
  }

  // The rows a file holds, or None when reading it fails.
  function ReadRows(c: Codec, f: seq<Byte>): Option<seq<Job>> {
    match NonBlank(SplitLines(f))
    case None => None
    case Some(lines) => Some(ParseAll(c, lines))
  }

  // --- Writing ---

  function Line(c: Codec, j: Job): seq<Byte> {
    c.encode(j) + [NL]
  }

  function EncodeAll(c: Codec, js: seq<Job>): seq<Byte> {
    if js == [] then [] else Line(c, js[0]) + EncodeAll(c, js[1..])
  }

  predicate Terminated(f: seq<Byte>) {
    f == [] || f[|f| - 1] == NL
  }

  function JoinLines(lines: seq<seq<Byte>>): seq<Byte> {
    if lines == [] then [] else lines[0] + [NL] + JoinLines(lines[1..])
  }

  // --- Reading what was written ---

  lemma {:induction false} NlIndexIs(f: seq<Byte>, k: nat)
    requires k <= |f| && NL !in f[..k] && (k < |f| ==> f[k] == NL)
    ensures NlIndex(f) == k
  {
    var m := NlIndex(f);
    assert forall i :: 0 <= i < k ==> f[i] == f[..k][i] && f[..k][i] in f[..k];
    assert forall i :: 0 <= i < m ==> f[i] == f[..m][i] && f[..m][i] in f[..m];
  }

  lemma TerminatedTail(f: seq<Byte>)
    requires Terminated(f) && f != []
    ensures NlIndex(f) < |f| && Terminated(f[NlIndex(f) + 1..])
  {
    var k := NlIndex(f);
    assert f[..|f|] == f;
  }

  lemma SplitUnfold(f: seq<Byte>, line: seq<Byte>, rest: seq<Byte>)
    requires NL !in line && f == line + [NL] + rest
    ensures SplitLines(f) == [StripCr(line)] + SplitLines(rest)
  {
    assert f[..|line|] == line;
    NlIndexIs(f, |line|);
    assert f[|line| + 1..] == rest;
  }

  lemma {:induction false} SplitConcat(f: seq<Byte>, g: seq<Byte>)
    requires Terminated(f)
    ensures SplitLines(f + g) == SplitLines(f) + SplitLines(g)
    decreases |f|
  {
    if f == [] {
      assert f + g == g;
    } else {
      var k := NlIndex(f);
      TerminatedTail(f);
      var line, rest := f[..k], f[k + 1..];
      assert f == line + [NL] + rest;
      SplitConcat(rest, g);
      Assoc(line + [NL], rest, g);
      SplitTwice(f, line, rest, g);
    }
  }

  lemma SplitTwice(f: seq<Byte>, line: seq<Byte>, rest: seq<Byte>, g: seq<Byte>)
    requires NL !in line && f == line + [NL] + rest
    requires f + g == line + [NL] + (rest + g)
    requires SplitLines(rest + g) == SplitLines(rest) + SplitLines(g)
    ensures SplitLines(f + g) == SplitLines(f) + SplitLines(g)
  {
    SplitUnfold(f, line, rest);
    SplitUnfold(f + g, line, rest + g);
    Assoc([StripCr(line)], SplitLines(rest), SplitLines(g));
  }

  // A whole line is one line; without its newline it still is.
  lemma SplitOne(line: seq<Byte>)
    requires line != [] && NL !in line && CR !in line
    ensures SplitLines(line + [NL]) == [line]
    ensures SplitLines(line) == [line]
  {
    var f := line + [NL];
    assert f[..|line|] == line;
    NlIndexIs(f, |line|);
    assert f[|line| + 1..] == [];
    assert line[..|line|] == line;
    NlIndexIs(line, |line|);
    assert SplitLines(f[|line| + 1..]) == [];
  }

  lemma {:induction false} NonBlankConcat(a: seq<seq<Byte>>, b: seq<seq<Byte>>)
    ensures NonBlank(a + b)
         == if NonBlank(a).None? || NonBlank(b).None? then None
            else Some(NonBlank(a).value + NonBlank(b).value)
  {
    if a == [] {
      assert a + b == b;
      if NonBlank(b).Some? {
        assert [] + NonBlank(b).value == NonBlank(b).value;
      }
    } else {
      NonBlankConcat(a[1..], b);
      assert (a + b)[1..] == a[1..] + b;
      if NonBlank(a).Some? && NonBlank(b).Some? {
        assert [a[0]] + (NonBlank(a[1..]).value + NonBlank(b).value)
            == ([a[0]] + NonBlank(a[1..]).value) + NonBlank(b).value;
      }
    }
  }

  lemma {:induction false} ParseAllConcat(c: Codec, a: seq<seq<Byte>>, b: seq<seq<Byte>>)
    ensures ParseAll(c, a + b) == ParseAll(c, a) + ParseAll(c, b)
  {
    if a == [] {
      assert a + b == b;
    } else {
      ParseAllConcat(c, a[1..], b);
      assert (a + b)[1..] == a[1..] + b;
    }
  }

  // Reading a terminated file and then more is reading both.
  lemma ReadConcat(c: Codec, f: seq<Byte>, g: seq<Byte>)
    requires Terminated(f)
    ensures ReadRows(c, f + g)
         == if ReadRows(c, f).None? || ReadRows(c, g).None? then None
            else Some(ReadRows(c, f).value + ReadRows(c, g).value)
  {
    SplitConcat(f, g);
    NonBlankConcat(SplitLines(f), SplitLines(g));
    if NonBlank(SplitLines(f)).Some? && NonBlank(SplitLines(g)).Some? {
      ParseAllConcat(c, NonBlank(SplitLines(f)).value, NonBlank(SplitLines(g)).value);
    }
  }

  // A single line that starts like an object: it reads as what it parses to.
  lemma ReadOne(c: Codec, line: seq<Byte>, f: seq<Byte>)
    requires line != [] && line[0] == OPEN_BRACE && NL !in line && CR !in line
    requires f == line || f == line + [NL]
    ensures ReadRows(c, f)
         == if !ValidUtf8(line) then None
            else Some(match c.parse(line) case None => [] case Some(j) => [j])
  {
    SplitOne(line);
    assert !IsBlankLine(line);
    assert [line][1..] == [];
    assert NonBlank([line]) == if ValidUtf8(line) then Some([line] + []) else None;
    assert [line] + [] == [line];
    assert ParseAll(c, [line][1..]) == [];
    assert ParseAll(c, [line]) == match c.parse(line) case None => [] case Some(j) => [j];
  }

  lemma ReadLine(c: Codec, j: Job)
    requires c.Lawful()
    ensures ReadRows(c, Line(c, j)) == Some([j]) && Terminated(Line(c, j))
  {
    assert c.RowLawful(j);
    ReadOne(c, c.encode(j), Line(c, j));
  }

  // append_line: the file now holds one row more.
  lemma ReadAppend(c: Codec, f: seq<Byte>, j: Job)
    requires c.Lawful() && Terminated(f)
    ensures Terminated(f + Line(c, j))
    ensures ReadRows(c, f + Line(c, j))
         == match ReadRows(c, f) case None => None case Some(rows) => Some(rows + [j])
  {
    ReadLine(c, j);
    ReadConcat(c, f, Line(c, j));
  }

  lemma {:induction false} ReadEncodeAll(c: Codec, js: seq<Job>)
    requires c.Lawful()
    ensures Terminated(EncodeAll(c, js)) && ReadRows(c, EncodeAll(c, js)) == Some(js)
  {
    if js == [] {
    } else {
      ReadEncodeAll(c, js[1..]);
      ReadLine(c, js[0]);
      ReadConcat(c, Line(c, js[0]), EncodeAll(c, js[1..]));
      assert [js[0]] + js[1..] == js;
    }
  }

  // --- Torn appends ---

  // An append of which n bytes reach the file: all of the line, some of it, or none.
  datatype Append = Append(job: Job, n: nat)

  predicate Fits(c: Codec, a: Append) {
    a.n <= |c.encode(a.job)| + 1
  }

  predicate AllFit(c: Codec, appends: seq<Append>) {
    forall i :: 0 <= i < |appends| ==> Fits(c, appends[i])
  }

  function Written(c: Codec, appends: seq<Append>): seq<Byte>
    requires AllFit(c, appends)
  {
    if appends == [] then []
    else Line(c, appends[0].job)[..appends[0].n] + Written(c, appends[1..])
  }

  // The last line of the file: empty, one whole row without its newline, or no row.
  datatype LastLine = Fresh | Complete(job: Job) | Damaged

  // What a reader gets of the appends: the rows that are whole and on a line of their
  // own. A row is lost when it is cut, and when it is glued onto what is left of another.
  function ReadBack(c: Codec, appends: seq<Append>, last: LastLine): seq<Job>
    decreases |appends|
  {
    if appends == [] then if last.Complete? then [last.job] else []
    else
      var a := appends[0];
      if a.n == 0 then ReadBack(c, appends[1..], last)
      else if a.n > |c.encode(a.job)| then
        (if last.Fresh? then [a.job] else []) + ReadBack(c, appends[1..], Fresh)
      else
        ReadBack(c, appends[1..], if last.Fresh? && a.n == |c.encode(a.job)| then Complete(a.job) else Damaged)
  }

  // No cut splits a character.
  predicate AtBoundaries(c: Codec, appends: seq<Append>) {
    forall i :: 0 <= i < |appends| && appends[i].n <= |c.encode(appends[i].job)| ==>
      IsCharBoundary(c.encode(appends[i].job), appends[i].n)
  }

  lemma {:induction false} FlatAppend(pieces: seq<seq<Byte>>, p: seq<Byte>)
    ensures Flat(pieces + [p]) == Flat(pieces) + p
  {
    if pieces == [] {
      var one := [p];
      assert one[1..] == [];
      assert pieces + one == one;
      assert p + [] == p && [] + p == p;
    } else {
      assert (pieces + [p])[1..] == pieces[1..] + [p];
      FlatAppend(pieces[1..], p);
      Assoc(pieces[0], Flat(pieces[1..]), p);
    }
  }

  // Pieces on one line start like a row and hold no line break.
  lemma {:induction false} PiecesShape(c: Codec, pieces: seq<seq<Byte>>)
    requires c.Lawful() && c.Pieces(pieces)
    ensures NL !in Flat(pieces) && CR !in Flat(pieces)
    ensures pieces != [] ==> Flat(pieces) != [] && Flat(pieces)[0] == OPEN_BRACE
  {
    if pieces != [] {
      assert c.IsPiece(pieces[0]);
      var j, n: nat :| c.IsCut(pieces[0], j, n);
      assert c.RowLawful(j);
      assert forall i :: 0 <= i < |pieces| - 1 ==> pieces[1..][i] == pieces[i + 1];
      PiecesShape(c, pieces[1..]);
    }
  }

  // What stands in front of a row, or of the start of one, is as valid as it was.
  lemma GlueCut(c: Codec, text: seq<Byte>, j: Job, n: nat)
    requires c.Lawful() && 0 < n <= |c.encode(j)|
    ensures ValidUtf8(text + c.encode(j)[..n]) <==> ValidUtf8(text) && IsCharBoundary(c.encode(j), n)
  {
    var row := c.encode(j);
    assert c.RowLawful(j);
    BoundaryIsCut(row, n);
    var cut := row[..n];
    if ValidUtf8(text) && ValidUtf8(cut) {
      ValidConcat(text, cut);
    }
    if ValidUtf8(text + cut) {
      assert (text + cut)[|text|] == cut[0] == OPEN_BRACE;
      BoundaryIsCut(text + cut, |text|);
      assert (text + cut)[..|text|] == text && (text + cut)[|text|..] == cut;
    }
  }

  // pieces are what stands on the last line, and last is what they amount to.
  ghost predicate Stands(c: Codec, pieces: seq<seq<Byte>>, last: LastLine) {
    c.Pieces(pieces)
    && match last
       case Fresh => pieces == []
       case Complete(j) => pieces == [c.encode(j)]
       case Damaged => pieces != [] && c.parse(Flat(pieces)) == None
  }

  // Nothing follows.
  lemma ReadLast(c: Codec, pieces: seq<seq<Byte>>, last: LastLine)
    requires c.Lawful() && Stands(c, pieces, last)
    ensures ReadRows(c, Flat(pieces)) == if ValidUtf8(Flat(pieces)) then Some(ReadBack(c, [], last)) else None
  {
    if pieces != [] {
      PiecesShape(c, pieces);
      ReadOne(c, Flat(pieces), Flat(pieces));
      if last.Complete? {
        assert c.RowLawful(last.job);
        assert pieces[1..] == [] && Flat(pieces) == c.encode(last.job) + [] == c.encode(last.job);
      }
    }
  }

  // A whole row ends the line.
  lemma ReadWhole(c: Codec, pieces: seq<seq<Byte>>, last: LastLine, j: Job)
    requires c.Lawful() && Stands(c, pieces, last)
    ensures var line := Flat(pieces) + c.encode(j);
      Terminated(line + [NL])
      && ReadRows(c, line + [NL])
         == if ValidUtf8(Flat(pieces)) then Some(if last.Fresh? then [j] else []) else None
  {
    var row := c.encode(j);
    assert c.RowLawful(j);
    assert row[..|row|] == row;
    assert c.IsCut(row, j, |row|) && c.IsPiece(row);
    var all := pieces + [row];
    FlatAppend(pieces, row);
    PiecesShape(c, all);
    GlueValid(Flat(pieces), row);
    ReadOne(c, Flat(all), Flat(all) + [NL]);
    if pieces == [] {
      assert [] + row == row;
    }
  }

  // A cut row joins it.
  lemma StandsMore(c: Codec, pieces: seq<seq<Byte>>, last: LastLine, j: Job, n: nat)
    requires c.Lawful() && Stands(c, pieces, last) && 0 < n <= |c.encode(j)|
    ensures Stands(c, pieces + [c.encode(j)[..n]],
                   if last.Fresh? && n == |c.encode(j)| then Complete(j) else Damaged)
  {
    var p := c.encode(j)[..n];
    assert c.IsCut(p, j, n) && c.IsPiece(p);
    var all := pieces + [p];
    assert c.Pieces(all);
    if pieces == [] {
      assert all == [p];
      assert all[1..] == [] && Flat(all) == p + [] == p;
      if n == |c.encode(j)| {
        assert p == c.encode(j);
      }
    }
  }

  lemma AtBoundariesCons(c: Codec, appends: seq<Append>)
    requires appends != []
    ensures AtBoundaries(c, appends)
       <==> (appends[0].n <= |c.encode(appends[0].job)|
             ==> IsCharBoundary(c.encode(appends[0].job), appends[0].n))
            && AtBoundaries(c, appends[1..])
  {
    assert forall i :: 0 < i < |appends| ==> appends[i] == appends[1..][i - 1];
  }

  // What a reader makes of the rest, given what stands on the last line.
  ghost predicate ReadsBack(c: Codec, pieces: seq<seq<Byte>>, last: LastLine, appends: seq<Append>)
    requires AllFit(c, appends)
  {
    ReadRows(c, Flat(pieces) + Written(c, appends))
    == if ValidUtf8(Flat(pieces)) && AtBoundaries(c, appends) then Some(ReadBack(c, appends, last)) else None
  }

  lemma ReadTornWhole(c: Codec, pieces: seq<seq<Byte>>, last: LastLine, appends: seq<Append>)
    requires c.Lawful() && Stands(c, pieces, last) && AllFit(c, appends) && appends != []
    requires appends[0].n > |c.encode(appends[0].job)| && ReadsBack(c, [], Fresh, appends[1..])
    ensures ReadsBack(c, pieces, last, appends)
  {
    var a, rest := appends[0], appends[1..];
    var text, row, more := Flat(pieces), c.encode(a.job), Written(c, rest);
    AtBoundariesCons(c, appends);
    ReadWhole(c, pieces, last, a.job);
    assert [] + more == more;
    ReadConcat(c, text + row + [NL], more);
    assert Line(c, a.job)[..a.n] == row + [NL];
    LineInFront(text, row, more);
  }

  lemma LineInFront(text: seq<Byte>, row: seq<Byte>, more: seq<Byte>)
    ensures text + (row + [NL] + more) == text + row + [NL] + more
  {
  }

  lemma ReadTornCut(c: Codec, pieces: seq<seq<Byte>>, last: LastLine, appends: seq<Append>)
    requires c.Lawful() && Stands(c, pieces, last) && AllFit(c, appends) && appends != []
    requires 0 < appends[0].n <= |c.encode(appends[0].job)|
    requires var a := appends[0];
      ReadsBack(c, pieces + [c.encode(a.job)[..a.n]],
                if last.Fresh? && a.n == |c.encode(a.job)| then Complete(a.job) else Damaged, appends[1..])
    ensures ReadsBack(c, pieces, last, appends)
  {
    var a, rest := appends[0], appends[1..];
    var text, cut, more := Flat(pieces), c.encode(a.job)[..a.n], Written(c, rest);
    AtBoundariesCons(c, appends);
    FlatAppend(pieces, cut);
    GlueCut(c, text, a.job, a.n);
    assert Line(c, a.job)[..a.n] == cut;
    Assoc(text, cut, more);
  }

  lemma {:induction false} ReadTorn(c: Codec, pieces: seq<seq<Byte>>, last: LastLine, appends: seq<Append>)
    requires c.Lawful() && Stands(c, pieces, last) && AllFit(c, appends)
    ensures ReadsBack(c, pieces, last, appends)
    decreases |appends|
  {
    if appends == [] {
      assert Flat(pieces) + [] == Flat(pieces);
      ReadLast(c, pieces, last);
    } else {
      var a, rest := appends[0], appends[1..];
      if a.n == 0 {
        AtBoundariesCons(c, appends);
        assert Written(c, appends) == Written(c, rest);
        ReadTorn(c, pieces, last, rest);
      } else if a.n > |c.encode(a.job)| {
        ReadTorn(c, [], Fresh, rest);
        ReadTornWhole(c, pieces, last, appends);
      } else {
        StandsMore(c, pieces, last, a.job, a.n);
        ReadTorn(c, pieces + [c.encode(a.job)[..a.n]],
                 if last.Fresh? && a.n == |c.encode(a.job)| then Complete(a.job) else Damaged, rest);
        ReadTornCut(c, pieces, last, appends);
      }
    }
  }

  // Any appends, each of them whole or cut anywhere, onto a readable file: it stays
  // readable exactly when no cut split a character, and then it holds what it held and
  // every row that stands whole on a line of its own.
  lemma TornAppends(c: Codec, f: seq<Byte>, rows: seq<Job>, appends: seq<Append>)
    requires c.Lawful() && Terminated(f) && ReadRows(c, f) == Some(rows) && AllFit(c, appends)
    ensures ReadRows(c, f + Written(c, appends))
         == if AtBoundaries(c, appends) then Some(rows + ReadBack(c, appends, Fresh)) else None
  {
    ReadTorn(c, [], Fresh, appends);
    assert Flat([]) + Written(c, appends) == Written(c, appends);
    ReadConcat(c, f, Written(c, appends));
  }

  // A cut inside a character is for good: no later append makes the file readable again.
  // So every listing and every mark_done fails from then on, and nothing is compacted.
  lemma UnreadableForGood(c: Codec, f: seq<Byte>, rows: seq<Job>, appends: seq<Append>, later: seq<Append>)
    requires c.Lawful() && Terminated(f) && ReadRows(c, f) == Some(rows)
    requires AllFit(c, appends) && AllFit(c, later) && !AtBoundaries(c, appends)
    ensures AllFit(c, appends + later) && ReadRows(c, f + Written(c, appends + later)) == None
  {
    var i :| 0 <= i < |appends| && appends[i].n <= |c.encode(appends[i].job)|
      && !IsCharBoundary(c.encode(appends[i].job), appends[i].n);
    assert (appends + later)[i] == appends[i];
    TornAppends(c, f, rows, appends + later);
  }

  // Appends that all reach the file.
  function Whole(c: Codec, js: seq<Job>): (appends: seq<Append>)
    ensures AllFit(c, appends) && |appends| == |js|
  {
    seq(|js|, i requires 0 <= i < |js| => Append(js[i], |c.encode(js[i])| + 1))
  }

  lemma {:induction false} ReadBackWhole(c: Codec, js: seq<Job>)
    ensures ReadBack(c, Whole(c, js), Fresh) == js
    ensures Written(c, Whole(c, js)) == EncodeAll(c, js)
  {
    if js != [] {
      assert Whole(c, js)[1..] == Whole(c, js[1..]);
      ReadBackWhole(c, js[1..]);
      assert [js[0]] + js[1..] == js;
    }
  }

  lemma ReadBackTorn(c: Codec, j: Job, n: nat, js: seq<Job>)
    requires 0 < n <= |c.encode(j)|
    ensures AllFit(c, [Append(j, n)] + Whole(c, js))
    ensures Written(c, [Append(j, n)] + Whole(c, js)) == c.encode(j)[..n] + EncodeAll(c, js)
    ensures AtBoundaries(c, [Append(j, n)] + Whole(c, js)) <==> IsCharBoundary(c.encode(j), n)
    ensures ReadBack(c, [Append(j, n)] + Whole(c, js), Fresh)
         == if js != [] then js[1..] else if n == |c.encode(j)| then [j] else []
  {
    var appends := [Append(j, n)] + Whole(c, js);
    assert appends[1..] == Whole(c, js);
    AtBoundariesCons(c, appends);
    ReadBackWhole(c, js);
    assert Line(c, j)[..n] == c.encode(j)[..n];
    if js != [] {
      GluedThenWhole(c, js, if n == |c.encode(j)| then Complete(j) else Damaged);
    }
  }

  lemma GluedThenWhole(c: Codec, js: seq<Job>, last: LastLine)
    requires js != [] && !last.Fresh?
    ensures ReadBack(c, Whole(c, js), last) == js[1..]
  {
    assert Whole(c, js)[1..] == Whole(c, js[1..]);
    ReadBackWhole(c, js[1..]);
    assert [] + js[1..] == js[1..];
  }

  // One tear: the torn row is lost, and with it the next append, which is glued onto it.
  lemma TornTail(c: Codec, f: seq<Byte>, rows: seq<Job>, j: Job, n: nat, js: seq<Job>)
    requires c.Lawful() && Terminated(f) && ReadRows(c, f) == Some(rows)
    requires 0 < n <= |c.encode(j)|
    ensures ReadRows(c, f + (c.encode(j)[..n] + EncodeAll(c, js)))
         == if !IsCharBoundary(c.encode(j), n) then None
            else Some(rows + if js != [] then js[1..] else if n == |c.encode(j)| then [j] else [])
  {
    ReadBackTorn(c, j, n, js);
    TornAppends(c, f, rows, [Append(j, n)] + Whole(c, js));
  }

  // Without a cut nothing is lost.
  lemma NoTear(c: Codec, f: seq<Byte>, rows: seq<Job>, js: seq<Job>)
    requires c.Lawful() && Terminated(f) && ReadRows(c, f) == Some(rows)
    ensures ReadRows(c, f + EncodeAll(c, js)) == Some(rows + js)
  {
    TornAppends(c, f, rows, Whole(c, js));
    ReadBackWhole(c, js);
  }

  function Jobs(appends: seq<Append>): seq<Job> {
    if appends == [] then [] else [appends[0].job] + Jobs(appends[1..])
  }

  // The ids of the rows that are cut or glued.
  function Hurt(c: Codec, appends: seq<Append>, clean: bool): set<string>
    decreases |appends|
  {
    if appends == [] then {}
    else
      var a := appends[0];
      if a.n > |c.encode(a.job)| then (if clean then {} else {a.job.messageId}) + Hurt(c, appends[1..], true)
      else {a.job.messageId} + Hurt(c, appends[1..], clean && a.n == 0)
  }

  ghost predicate Agree(x: seq<Job>, y: seq<Job>, id: string) {
    (id in Fold(x) <==> id in Fold(y)) && (id in Fold(x) ==> Fold(x)[id] == Fold(y)[id])
  }

  lemma {:induction false} SpareOthers(c: Codec, appends: seq<Append>, last: LastLine,
                                       x: seq<Job>, y: seq<Job>, id: string)
    requires id !in Hurt(c, appends, last.Fresh?) && Agree(x, y, id)
    requires last.Complete? ==> last.job.messageId != id
    ensures Agree(x + ReadBack(c, appends, last), y + Jobs(appends), id)
    decreases |appends|
  {
    if appends == [] {
      assert y + [] == y;
      if last.Complete? {
        FoldAppend(x, last.job);
      } else {
        assert x + [] == x;
      }
    } else {
      var a, rest := appends[0], appends[1..];
      FoldAppend(y, a.job);
      Assoc(y, [a.job], Jobs(rest));
      if a.n > |c.encode(a.job)| {
        var kept := if last.Fresh? then [a.job] else [];
        FoldAppend(x, a.job);
        assert !last.Fresh? ==> x + kept == x;
        SpareOthers(c, rest, Fresh, x + kept, y + [a.job], id);
        Assoc(x, kept, ReadBack(c, rest, Fresh));
      } else if a.n == 0 {
        SpareOthers(c, rest, last, x, y + [a.job], id);
      } else {
        SpareOthers(c, rest, if last.Fresh? && a.n == |c.encode(a.job)| then Complete(a.job) else Damaged,
                    x, y + [a.job], id);
      }
    }
  }

  // Every id of which no row was cut or glued folds as if there were no damage.
  lemma TornAppendsSpareOthers(c: Codec, rows: seq<Job>, appends: seq<Append>, id: string)
    requires id !in Hurt(c, appends, true)
    ensures Agree(rows + ReadBack(c, appends, Fresh), rows + Jobs(appends), id)
  {
    SpareOthers(c, appends, Fresh, rows, rows, id);
  }
}
