// The attachment files of src/mime_parse.rs and the table of src/attachment_store.rs
// that says which of them are still wanted.
module Attachments {
  import opened Wrappers

  // SHA-256 in hex: any function from contents to names.
  type Hash = seq<Byte> -> string

  datatype Row = Row(firstSeen: int, lastSeen: int, count: nat)
  type Rows = map<string, Row>
  type Files = map<string, seq<Byte>>

  // Every file is named after its contents.
  ghost predicate HashedNames(hash: Hash, files: Files) {
    forall n :: n in files ==> hash(files[n]) == n
  }

  ghost predicate CollisionFree(hash: Hash) {
    forall b, c :: hash(b) == hash(c) ==> b == c
  }

  ghost predicate RowsBacked(rows: Rows, files: Files) {
    forall n :: n in rows ==> n in files
  }

  // --- Writing the attachments of one message ---

  datatype Part = Binary(bytes: seq<Byte>) | Text(utf8: seq<Byte>) | Multipart

  function Payload(p: Part): Option<seq<Byte>> {
    match p
    case Binary(b) => Some(b)
    case Text(b) => Some(b)
    case Multipart => None
  }

  function Capped(bytes: seq<Byte>, max: nat): seq<Byte> {
    if |bytes| > max then bytes[..max] else bytes
  }

  datatype Attachment = Attachment(sha256: string, size: nat, truncated: bool)

  function AttachmentOf(p: Part, max: nat, hash: Hash): seq<Attachment> {
    match Payload(p)
    case None => []
    case Some(b) => [Attachment(hash(Capped(b, max)), |Capped(b, max)|, |b| > max)]
  }

  function AttachmentsOf(parts: seq<Part>, max: nat, hash: Hash): seq<Attachment> {
    if parts == [] then []
    else AttachmentsOf(parts[..|parts| - 1], max, hash) + AttachmentOf(parts[|parts| - 1], max, hash)
  }

  // The list is made part by part.
  lemma {:induction false} AttachmentsConcat(a: seq<Part>, b: seq<Part>, max: nat, hash: Hash)
    ensures AttachmentsOf(a + b, max, hash) == AttachmentsOf(a, max, hash) + AttachmentsOf(b, max, hash)
  {
    if b == [] {
      assert a + b == a;
    } else {
      var n := |b| - 1;
      assert (a + b)[..|a| + n] == a + b[..n];
      AttachmentsConcat(a, b[..n], max, hash);
      Assoc(AttachmentsOf(a, max, hash), AttachmentsOf(b[..n], max, hash), AttachmentOf(b[n], max, hash));
    }
  }

  // One part: binary or text, it is listed under the hash of what is kept of it.
  lemma AttachmentsOne(p: Part, max: nat, hash: Hash)
    ensures AttachmentsOf([p], max, hash)
         == if p.Multipart? then []
            else
              var whole := if p.Binary? then p.bytes else p.utf8;
              var kept := if |whole| > max then whole[..max] else whole;
              [Attachment(sha256 := hash(kept), size := |kept|, truncated := |whole| > max)]
  {
    assert [p][..0] == [];
    assert AttachmentsOf([], max, hash) == [];
  }

  // Where an I/O error strikes: the part whose write fails, and how far its temporary
  // file got.
  datatype DiskFault = NoFault | FailsAt(part: nat, written: nat)

  datatype WriteError = WriteError(sha256: string)

  class Directory {
    var files: Files
    // Temporary files that were never renamed; each has a random name of its own.
    var leftovers: seq<seq<Byte>>

    constructor ()
      ensures files == map[] && leftovers == []
    {
      files, leftovers := map[], [];
    }

    // Skips a name that exists; otherwise writes a temporary file and renames it.
    method WriteDedup(name: string, bytes: seq<Byte>, fault: Option<nat>) returns (ok: bool)
      modifies this
      ensures ok == (name in old(files) || fault.None?)
      ensures files == if name in old(files) || fault.Some? then old(files) else old(files)[name := bytes]
      ensures leftovers == if ok then old(leftovers) else old(leftovers) + [Capped(bytes, fault.value)]
    {
      if name in files {
        return true;
      }
      if fault.Some? {
        leftovers := leftovers + [Capped(bytes, fault.value)];
        return false;
      }
      leftovers := leftovers + [bytes];
      files, leftovers := files[name := bytes], leftovers[..|leftovers| - 1];
      return true;
    }

    // The attachment loop of parse_eml. A write error ends it, and files already
    // written stay.
    method Persist(parts: seq<Part>, max: nat, hash: Hash, fault: DiskFault)
      returns (r: Result<seq<Attachment>, WriteError>)
      requires HashedNames(hash, files)
      modifies this
      ensures HashedNames(hash, files)
      ensures r.Ok? ==> r.value == AttachmentsOf(parts, max, hash) && leftovers == old(leftovers)
      ensures r.Ok? && CollisionFree(hash) ==> AllKept(parts, max, hash, files)
      ensures r.Err? ==>
        fault.FailsAt? && fault.part < |parts| && Payload(parts[fault.part]).Some?
        && r.error.sha256 == hash(Capped(Payload(parts[fault.part]).value, max)) && r.error.sha256 !in files
      ensures files.Keys == old(files).Keys
        + Named(if r.Ok? then parts else parts[..fault.part], max, hash)
      ensures forall n :: n in old(files) ==> files[n] == old(files)[n]
    {
      var list: seq<Attachment> := [];
      assert parts[..0] == [];
      for i := 0 to |parts|
        invariant HashedNames(hash, files) && leftovers == old(leftovers)
        invariant list == AttachmentsOf(parts[..i], max, hash)
        invariant files.Keys == old(files).Keys + Named(parts[..i], max, hash)
        invariant forall n :: n in old(files) ==> n in files && files[n] == old(files)[n]
      {
        NamedSnoc(parts, i, max, hash);
        var strike := if fault.FailsAt? && fault.part == i then Some(fault.written) else None;
        var written := PersistOne(parts[i], max, hash, strike);
        if written.Err? {
          return Err(written.error);
        }
        list := list + written.value;
      }
      assert parts[..|parts|] == parts;
      NamedKept(parts, max, hash, files);
      return Ok(list);
    }

    // One turn of it: a part that is no attachment adds nothing.
    method PersistOne(part: Part, max: nat, hash: Hash, fault: Option<nat>)
      returns (r: Result<seq<Attachment>, WriteError>)
      requires HashedNames(hash, files)
      modifies this
      ensures HashedNames(hash, files)
      ensures r.Ok? ==>
        r.value == AttachmentOf(part, max, hash) && leftovers == old(leftovers)
        && files.Keys == old(files).Keys + NameOf(part, max, hash)
      ensures r.Err? ==>
        fault.Some? && Payload(part).Some? && files == old(files)
        && r.error.sha256 == hash(Capped(Payload(part).value, max)) && r.error.sha256 !in files
      ensures forall n :: n in old(files) ==> n in files && files[n] == old(files)[n]
    {
      var payload := Payload(part);
      if payload.None? {
        return Ok([]);
      }
      var bytes := Capped(payload.value, max);
      var sha256 := hash(bytes);
      var ok := WriteDedup(sha256, bytes, fault);
      if !ok {
        return Err(WriteError(sha256));
      }
      return Ok([Attachment(sha256, |bytes|, |payload.value| > max)]);
    }

    // The unlink loop of gc, over names in any order. A stuck file cannot be removed
    // and a missing one does not count.
    method RemoveAll(names: set<string>, stuck: set<string>) returns (removed: nat)
      modifies this
      ensures files == Without(old(files), names, stuck) && leftovers == old(leftovers)
      ensures removed == |Removed(old(files), names, stuck)|
    {
      removed := 0;
      var todo := names;
      while todo != {}
        invariant todo <= names && leftovers == old(leftovers)
        invariant files == Without(old(files), names - todo, stuck)
        invariant removed == |Removed(old(files), names - todo, stuck)|
      {
        var n :| n in todo;
        UnlinkNext(old(files), names - todo, n, stuck);
        CountNext(old(files), names - todo, n, stuck);
        assert names - (todo - {n}) == names - todo + {n};
        todo := todo - {n};
        if n in files && n !in stuck {
          files := map m | m in files && m != n :: files[m];
          removed := removed + 1;
        }
      }
      assert names - todo == names;
    }
  }

  // What unlinking some names leaves, and the files that removes.
  function Without(files: Files, names: set<string>, stuck: set<string>): Files {
    map n | n in files && (n !in names || n in stuck) :: files[n]
  }

  function Removed(files: Files, names: set<string>, stuck: set<string>): set<string> {
    set n | n in names && n !in stuck && n in files
  }

  function UnlinkOne(left: Files, n: string, stuck: set<string>): Files {
    if n in left && n !in stuck then map m | m in left && m != n :: left[m] else left
  }

  lemma UnlinkNext(files: Files, done: set<string>, n: string, stuck: set<string>)
    ensures Without(files, done + {n}, stuck) == UnlinkOne(Without(files, done, stuck), n, stuck)
  {
  }

  lemma CountNext(files: Files, done: set<string>, n: string, stuck: set<string>)
    requires n !in done
    ensures |Removed(files, done + {n}, stuck)|
         == |Removed(files, done, stuck)| + (if n in files && n !in stuck then 1 else 0)
  {
    var r, r' := Removed(files, done, stuck), Removed(files, done + {n}, stuck);
    if n in files && n !in stuck {
      assert r' == r + {n} && n !in r;
    } else {
      assert r' == r;
    }
  }

  // The names of the parts that are kept.
  ghost function Named(parts: seq<Part>, max: nat, hash: Hash): set<string> {
    set p | p in parts && Payload(p).Some? :: hash(Capped(Payload(p).value, max))
  }

  // The file of every part holds its bytes, up to the maximum.
  ghost predicate AllKept(parts: seq<Part>, max: nat, hash: Hash, files: Files) {
    forall p :: p in parts && Payload(p).Some? ==>
      var kept := Capped(Payload(p).value, max);
      hash(kept) in files && files[hash(kept)] == kept
  }

  // That is every binary and every text part, under the hash of its first max bytes.
  lemma KeptExactly(p: Part, parts: seq<Part>, max: nat, hash: Hash, files: Files)
    requires p in parts && !p.Multipart?
    ensures var whole := if p.Binary? then p.bytes else p.utf8;
      var kept := if |whole| > max then whole[..max] else whole;
      hash(kept) in Named(parts, max, hash)
      && (AllKept(parts, max, hash, files) ==> hash(kept) in files && files[hash(kept)] == kept)
  {
    assert hash(Capped(Payload(p).value, max)) in Named(parts, max, hash);
  }

  lemma NamedKept(parts: seq<Part>, max: nat, hash: Hash, files: Files)
    requires HashedNames(hash, files) && Named(parts, max, hash) <= files.Keys
    ensures CollisionFree(hash) ==> AllKept(parts, max, hash, files)
  {
    if CollisionFree(hash) {
      forall p | p in parts && Payload(p).Some?
        ensures hash(Capped(Payload(p).value, max)) in files
        ensures files[hash(Capped(Payload(p).value, max))] == Capped(Payload(p).value, max)
      {
        assert hash(Capped(Payload(p).value, max)) in Named(parts, max, hash);
      }
    }
  }

  // Its name, if it is kept.
  ghost function NameOf(p: Part, max: nat, hash: Hash): set<string> {
    if Payload(p).Some? then {hash(Capped(Payload(p).value, max))} else {}
  }

  lemma NamedSnoc(parts: seq<Part>, i: nat, max: nat, hash: Hash)
    requires i < |parts|
    ensures parts[..i + 1][..i] == parts[..i]
    ensures Named(parts[..i + 1], max, hash) == Named(parts[..i], max, hash) + NameOf(parts[i], max, hash)
  {
    assert parts[..i + 1] == parts[..i] + [parts[i]];
    assert parts[i] in parts[..i + 1];
  }

  // What the event carries is what was recorded, part by part and in order.
  lemma {:induction false} AttachmentsNamed(parts: seq<Part>, max: nat, hash: Hash)
    ensures (set a | a in AttachmentsOf(parts, max, hash) :: a.sha256) == Named(parts, max, hash)
    ensures forall a :: a in AttachmentsOf(parts, max, hash) ==> a.size <= max && (a.truncated ==> a.size == max)
  {
    if parts != [] {
      var n := |parts| - 1;
      AttachmentsNamed(parts[..n], max, hash);
      NamedSnoc(parts, n, max, hash);
      assert parts[..n + 1] == parts;
      var before, all := AttachmentsOf(parts[..n], max, hash), AttachmentsOf(parts, max, hash);
      if Payload(parts[n]).Some? {
        assert all == before + [all[|before|]];
      }
    }
  }

  // --- The table ---

  // The first reference sets both times, later ones bump last_seen and count.
  function Upsert(rows: Rows, sha256: string, now: int): Rows {
    if sha256 == "" then rows
    else if sha256 in rows then rows[sha256 := rows[sha256].(lastSeen := now, count := rows[sha256].count + 1)]
    else rows[sha256 := Row(now, now, 1)]
  }

  function Stale(rows: Rows, cutoff: int): set<string> {
    set n | n in rows && rows[n].lastSeen < cutoff
  }

  function Fresh(rows: Rows, cutoff: int): Rows {
    map n | n in rows && rows[n].lastSeen >= cutoff :: rows[n]
  }

  datatype StoreError = StatementFailed

  class AttachmentStore {
    var rows: Rows

    constructor ()
      ensures rows == map[]
    {
      rows := map[];
    }

    method Record(sha256: string, now: int)
      modifies this
      ensures rows == Upsert(old(rows), sha256, now)
    {
      if sha256 == "" {
        return;
      }
      if sha256 in rows {
        rows := rows[sha256 := rows[sha256].(lastSeen := now, count := rows[sha256].count + 1)];
      } else {
        rows := rows[sha256 := Row(now, now, 1)];
      }
    }

    // After recording some references, the time of the last one to the name, if there
    // is any.
    method LastSeen(sha256: string, ghost refs: seq<Reference>) returns (t: Option<int>)
      ensures t == if sha256 in rows then Some(rows[sha256].lastSeen) else None
      ensures rows == RecordedAll(refs) ==>
        (t.Some? <==> sha256 != "" && CountOf(refs, sha256) > 0)
        && (t.Some? ==> exists i: nat :: IsLast(refs, sha256, i) && t.value == refs[i].at)
    {
      TableRemembers(refs, sha256);
      if sha256 in rows {
        return Some(rows[sha256].lastSeen);
      }
      return None;
    }

    // A sweep that nothing interleaves with. stuck: files that cannot be unlinked;
    // their rows go all the same. The SELECT may return the stale rows in any order.
    // selected, deleted: whether the two statements work.
    method Gc(dir: Directory, retention: int, now: int, stuck: set<string>, selected: bool, deleted: bool)
      returns (r: Result<nat, StoreError>)
      modifies this, dir
      ensures dir.leftovers == old(dir.leftovers)
      ensures retention <= 0 || !selected ==>
        r == (if retention <= 0 then Ok(0) else Err(StatementFailed))
        && rows == old(rows) && dir.files == old(dir.files)
      ensures retention > 0 && selected ==>
        var stale := Stale(old(rows), now - retention);
        dir.files == Without(old(dir.files), stale, stuck)
        && (if deleted || stale == {}
            then r == Ok(|Removed(old(dir.files), stale, stuck)|) && rows == Fresh(old(rows), now - retention)
            else r == Err(StatementFailed) && rows == old(rows))
      ensures r.Ok? && old(RowsBacked(rows, dir.files)) ==> RowsBacked(rows, dir.files)
      // The rows that stay are those referenced within the retention, as they were, and the
      // files that go are those of the other rows, unless they are stuck.
      ensures retention > 0 && r.Ok? ==>
        (forall n :: n in rows <==> n in old(rows) && old(rows)[n].lastSeen >= now - retention)
        && (forall n :: n in rows ==> rows[n] == old(rows)[n])
      ensures retention > 0 && selected ==>
        (forall n :: n in old(dir.files) && n !in dir.files <==>
           n in old(dir.files) && n in old(rows) && old(rows)[n].lastSeen < now - retention && n !in stuck)
        && (forall n :: n in dir.files ==> n in old(dir.files) && dir.files[n] == old(dir.files)[n])
    {
      if retention <= 0 {
        return Ok(0);
      }
      if !selected {
        return Err(StatementFailed);
      }
      var cutoff := now - retention;
      var stale := Stale(rows, cutoff);
      var removed := dir.RemoveAll(stale, stuck);
      if stale != {} {
        if !deleted {
          return Err(StatementFailed);
        }
        rows := Fresh(rows, cutoff);
      } else {
        assert forall n :: n in rows ==> n !in Stale(rows, cutoff);
        assert rows == Fresh(rows, cutoff);
      }
      return Ok(removed);
    }
  }

  // --- What the table remembers ---

  datatype Reference = Reference(sha256: string, at: int)

  // The table after recording some references, oldest first.
  function RecordedAll(refs: seq<Reference>): Rows {
    if refs == [] then map[]
    else Upsert(RecordedAll(refs[..|refs| - 1]), refs[|refs| - 1].sha256, refs[|refs| - 1].at)
  }

  function CountOf(refs: seq<Reference>, n: string): nat {
    if refs == [] then 0
    else CountOf(refs[..|refs| - 1], n) + if refs[|refs| - 1].sha256 == n then 1 else 0
  }

  ghost predicate IsFirst(refs: seq<Reference>, n: string, i: nat) {
    i < |refs| && refs[i].sha256 == n && forall j :: 0 <= j < i ==> refs[j].sha256 != n
  }

  ghost predicate IsLast(refs: seq<Reference>, n: string, i: nat) {
    i < |refs| && refs[i].sha256 == n && forall j :: i < j < |refs| ==> refs[j].sha256 != n
  }

  // Whatever is recorded in whatever order, a name has a row exactly when it was
  // referenced and is not empty; the row counts the references, first_seen is the time
  // of the first and last_seen that of the last.
  lemma {:induction false} TableRemembers(refs: seq<Reference>, n: string)
    ensures n in RecordedAll(refs) <==> n != "" && CountOf(refs, n) > 0
    ensures n in RecordedAll(refs) ==>
      var row := RecordedAll(refs)[n];
      row.count == CountOf(refs, n)
      && (exists i: nat :: IsFirst(refs, n, i) && row.firstSeen == refs[i].at)
      && (exists i: nat :: IsLast(refs, n, i) && row.lastSeen == refs[i].at)
  {
    if refs != [] {
      var k := |refs| - 1;
      var before := refs[..k];
      TableRemembers(before, n);
      if n in RecordedAll(before) {
        var i: nat :| IsFirst(before, n, i) && RecordedAll(before)[n].firstSeen == before[i].at;
        assert IsFirst(refs, n, i);
        if refs[k].sha256 != n {
          var j: nat :| IsLast(before, n, j) && RecordedAll(before)[n].lastSeen == before[j].at;
          assert IsLast(refs, n, j);
        } else {
          assert IsLast(refs, n, k);
        }
      } else if n in RecordedAll(refs) {
        NeverReferenced(before, n);
        assert IsFirst(refs, n, k) && IsLast(refs, n, k);
      }
    }
  }

  lemma {:induction false} NeverReferenced(refs: seq<Reference>, n: string)
    requires CountOf(refs, n) == 0
    ensures forall i :: 0 <= i < |refs| ==> refs[i].sha256 != n
  {
    if refs != [] {
      NeverReferenced(refs[..|refs| - 1], n);
    }
  }

  // --- Where the files are ---

  // A path as its components; nothing is known of links or of "..".
  datatype Path = Path(absolute: bool, parts: seq<string>)

  // PathBuf::join: an absolute path replaces what it is joined to.
  function JoinPath(base: Path, p: Path): Path {
    if p.absolute then p else Path(base.absolute, base.parts + p.parts)
  }

  // The worker takes the configured path as it is, the collector joins it to the data
  // directory; the system resolves either against the working directory.
  function WorkerDir(cwd: Path, configured: Path): Path {
    JoinPath(cwd, configured)
  }

  function CollectorDir(cwd: Path, data: Path, configured: Path): Path {
    JoinPath(cwd, JoinPath(data, configured))
  }

  predicate OnePlace(cwd: Path, data: Path, configured: Path) {
    configured.absolute || JoinPath(cwd, data) == cwd
  }

  lemma SamePlaceExactly(cwd: Path, data: Path, configured: Path)
    requires cwd.absolute
    ensures WorkerDir(cwd, configured) == CollectorDir(cwd, data, configured) <==> OnePlace(cwd, data, configured)
  {
    if !configured.absolute {
      var home := JoinPath(cwd, data);
      assert CollectorDir(cwd, data, configured) == Path(true, home.parts + configured.parts) by {
        assert cwd.parts + (data.parts + configured.parts) == cwd.parts + data.parts + configured.parts;
      }
      if home.parts + configured.parts == cwd.parts + configured.parts {
        assert |home.parts| == |cwd.parts|;
        assert home.parts == (home.parts + configured.parts)[..|home.parts|] == cwd.parts;
      }
    }
  }

  // What the unlinks of a sweep leave of all directories.
  function SweptAt(dirs: map<Path, Files>, dir: Path, stale: set<string>, stuck: set<string>): map<Path, Files> {
    if dir in dirs then dirs[dir := Without(dirs[dir], stale, stuck)] else dirs
  }

  // A sweep removes any of the worker's files exactly when the two name one place and
  // some stale name has a file that can be removed. Otherwise the rows go and every
  // file stays.
  lemma SweepReachesFiles(
      cwd: Path, data: Path, configured: Path, files: Files, stale: set<string>, stuck: set<string>)
    requires cwd.absolute
    ensures var dirs := map[WorkerDir(cwd, configured) := files];
      SweptAt(dirs, CollectorDir(cwd, data, configured), stale, stuck) != dirs
      <==> OnePlace(cwd, data, configured) && Removed(files, stale, stuck) != {}
  {
    SamePlaceExactly(cwd, data, configured);
    var worker := WorkerDir(cwd, configured);
    var dirs := map[worker := files];
    var left := Without(files, stale, stuck);
    if Removed(files, stale, stuck) == {} {
      assert forall n :: n in files ==> n !in Removed(files, stale, stuck);
      assert left == files;
    } else {
      var n :| n in Removed(files, stale, stuck);
      assert n in files && n !in left;
    }
    assert dirs[worker := left][worker] == left;
  }
}
