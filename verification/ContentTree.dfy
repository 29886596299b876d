/** The byte stream that identifies a managed content tree.

    `content_tree_digest` hashes a tagged, length-prefixed record for every directory and file below a
    root, then a trailer of counters. Here the hash input itself is built, and shown to depend on the
    tree's content alone (not on directory enumeration order) and to determine that content.

    A byte is a character below 256. Names are byte strings: for UTF-8 names, byte order and
    code-point order agree. */
module ContentTree {
  import opened Basics
  import opened Ordering

  datatype Named<T> = Named(name: string, item: T)

  datatype Directory = Directory(symlink: bool, tree: Tree)

  datatype File = File(regular: bool, size: nat, digest: string)

  /** One directory listing, in whatever order the file system returned it. */
  datatype Tree = Tree(dirs: seq<Named<Directory>>, files: seq<Named<File>>)

  datatype Record = DirectoryRecord(path: string) | FileRecord(path: string, size: nat, digest: string)

  datatype Error = RootNotDirectory | SymbolicLink | SpecialFile | TooManyEntries | TooManyBytes | Overflow

  datatype Result = Stream(bytes: string) | Failed(error: Error)

  const WORD_LIMIT: nat := 0x1_0000_0000_0000_0000
  const DIGEST_BYTES: nat := 32
  const HEADER: string := "white-hat-agent-content-tree\0" + [1 as char]

  // ---- sorting a listing -------------------------------------------------------------------

  function Insert<T>(x: Named<T>, s: seq<Named<T>>): seq<Named<T>> {
    if s == [] || !TextLess(s[0].name, x.name) then [x] + s else [s[0]] + Insert(x, s[1..])
  }

  function SortByName<T>(s: seq<Named<T>>): seq<Named<T>> {
    if s == [] then [] else Insert(s[0], SortByName(s[1..]))
  }

  function Names<T>(s: seq<Named<T>>): (names: seq<string>)
    ensures |names| == |s|
    ensures forall i :: 0 <= i < |s| ==> names[i] == s[i].name
  {
    seq(|s|, i requires 0 <= i < |s| => s[i].name)
  }

  ghost predicate DistinctNames<T>(s: seq<Named<T>>) {
    forall i, j :: 0 <= i < j < |s| ==> s[i].name != s[j].name
  }

  lemma SortedTail<T>(s: seq<Named<T>>)
    requires s != [] && SortedText(Names(s))
    ensures SortedText(Names(s[1..]))
    ensures forall y :: y in s[1..] ==> TextLess(s[0].name, y.name)
  {
    assert forall i :: 0 <= i < |s[1..]| ==> Names(s[1..])[i] == Names(s)[i + 1];
    forall y | y in s[1..] ensures TextLess(s[0].name, y.name) {
      var k :| 0 <= k < |s[1..]| && s[1..][k] == y;
      assert TextLess(Names(s)[0], Names(s)[k + 1]);
    }
  }

  lemma SortedCons<T>(x: Named<T>, s: seq<Named<T>>)
    requires SortedText(Names(s)) && forall y :: y in s ==> TextLess(x.name, y.name)
    ensures SortedText(Names([x] + s))
  {
    var r := [x] + s;
    forall i, j | 0 <= i < j < |r| ensures TextLess(Names(r)[i], Names(r)[j]) {
      assert r[j] == s[j - 1] && Names(s)[j - 1] == Names(r)[j];
      if i > 0 { assert Names(s)[i - 1] == Names(r)[i]; }
    }
  }

  lemma {:induction false} InsertSorts<T>(x: Named<T>, s: seq<Named<T>>)
    requires SortedText(Names(s)) && forall y :: y in s ==> y.name != x.name
    ensures SortedText(Names(Insert(x, s)))
    ensures forall y :: y in Insert(x, s) ==> y == x || y in s
    ensures x in Insert(x, s) && forall y :: y in s ==> y in Insert(x, s)
  {
    if s == [] {
      SortedCons(x, s);
    } else if !TextLess(s[0].name, x.name) {
      SortedTail(s);
      TextLessTotal(s[0].name, x.name);
      forall y | y in s ensures TextLess(x.name, y.name) {
        if y != s[0] {
          assert y in s[1..];
          TextLessTransitive(x.name, s[0].name, y.name);
        }
      }
      SortedCons(x, s);
    } else {
      SortedTail(s);
      InsertSorts(x, s[1..]);
      SortedCons(s[0], Insert(x, s[1..]));
      assert s == [s[0]] + s[1..];
    }
  }

  lemma {:induction false} SortByNameSorts<T>(s: seq<Named<T>>)
    requires DistinctNames(s)
    ensures SortedText(Names(SortByName(s)))
    ensures forall y :: y in SortByName(s) ==> y in s
    ensures forall y :: y in s ==> y in SortByName(s)
    ensures |SortByName(s)| == |s|
  {
    if s != [] {
      SortByNameSorts(s[1..]);
      InsertSorts(s[0], SortByName(s[1..]));
      InsertLengthens(s[0], SortByName(s[1..]));
      assert s == [s[0]] + s[1..];
    }
  }

  lemma InsertLengthens<T>(x: Named<T>, s: seq<Named<T>>)
    ensures |Insert(x, s)| == |s| + 1
  {
  }

  // ---- the records of a walk ---------------------------------------------------------------

  predicate NoSlash(name: string) {
    forall i :: 0 <= i < |name| ==> name[i] != '/'
  }

  predicate ByteString(s: string) {
    forall i :: 0 <= i < |s| ==> s[i] < 256 as char
  }

  predicate GoodName(name: string) {
    name != [] && NoSlash(name) && ByteString(name)
  }

  /** What every real file system guarantees of a listing, and SHA-256 of a digest. */
  ghost predicate WellFormed(t: Tree)
    decreases t
  {
    && DistinctNames(t.dirs) && DistinctNames(t.files)
    && (forall d :: d in t.dirs ==> GoodName(d.name) && WellFormed(d.item.tree))
    && (forall f :: f in t.files ==> GoodName(f.name) && ByteString(f.item.digest) && |f.item.digest| == DIGEST_BYTES)
    && (forall d, f :: d in t.dirs && f in t.files ==> d.name != f.name)
  }

  ghost function DirectoryRecords(dirs: seq<Named<Directory>>, prefix: string): (r: seq<Record>)
    ensures |r| == |dirs| && forall i :: 0 <= i < |r| ==> r[i] == DirectoryRecord(prefix + dirs[i].name)
  {
    seq(|dirs|, i requires 0 <= i < |dirs| => DirectoryRecord(prefix + dirs[i].name))
  }

  ghost function FileRecordOf(f: Named<File>, prefix: string): Record {
    FileRecord(prefix + f.name, f.item.size, f.item.digest)
  }

  ghost function FileRecords(files: seq<Named<File>>, prefix: string): (r: seq<Record>)
    ensures |r| == |files| && forall i :: 0 <= i < |r| ==> r[i] == FileRecordOf(files[i], prefix)
  {
    seq(|files|, i requires 0 <= i < |files| => FileRecordOf(files[i], prefix))
  }

  /** What one step of `os.walk` contributes: a directory's sub-directories, then its files. */
  ghost function Listing(dirs: seq<Named<Directory>>, files: seq<Named<File>>, prefix: string): (r: seq<Record>)
    ensures |r| == |dirs| + |files|
  {
    DirectoryRecords(dirs, prefix) + FileRecords(files, prefix)
  }

  ghost function Below(prefix: string, name: string): string {
    prefix + name + "/"
  }

  /** Top-down walk: this directory's sub-directories, its files, then each sub-directory in turn. */
  ghost function Walk(t: Tree, prefix: string): seq<Record>
    requires WellFormed(t)
    decreases t, |t.dirs| + 1
  {
    SortByNameSorts(t.dirs);
    var dirs := SortByName(t.dirs);
    Listing(dirs, SortByName(t.files), prefix) + WalkEach(t, dirs, prefix)
  }

  ghost function WalkEach(t: Tree, dirs: seq<Named<Directory>>, prefix: string): seq<Record>
    requires WellFormed(t) && |dirs| <= |t.dirs| && forall d :: d in dirs ==> d in t.dirs
    decreases t, |dirs|
  {
    if dirs == [] then []
    else
      assert dirs[0] in t.dirs;
      Walk(dirs[0].item.tree, Below(prefix, dirs[0].name)) + WalkEach(t, dirs[1..], prefix)
  }

  lemma RecordsOfListing(dirs: seq<Named<Directory>>, files: seq<Named<File>>, prefix: string, r: Record)
    ensures r in DirectoryRecords(dirs, prefix) <==> exists d :: d in dirs && r == DirectoryRecord(prefix + d.name)
    ensures r in FileRecords(files, prefix) <==> exists f :: f in files && r == FileRecordOf(f, prefix)
  {
    if d :| d in dirs && r == DirectoryRecord(prefix + d.name) {
      var i :| 0 <= i < |dirs| && dirs[i] == d;
      assert DirectoryRecords(dirs, prefix)[i] == r;
    }
    if f :| f in files && r == FileRecordOf(f, prefix) {
      var i :| 0 <= i < |files| && files[i] == f;
      assert FileRecords(files, prefix)[i] == r;
    }
  }

  /** r describes a directory or file somewhere below t: no order, no stream. */
  ghost predicate Describes(r: Record, t: Tree, prefix: string)
    decreases t
  {
    || (exists d :: d in t.dirs && r == DirectoryRecord(prefix + d.name))
    || (exists f :: f in t.files && r == FileRecordOf(f, prefix))
    || (exists d :: d in t.dirs && Describes(r, d.item.tree, Below(prefix, d.name)))
  }

  /** Same paths, kinds, sizes and file digests. */
  ghost predicate SameContent(t: Tree, u: Tree, prefix: string) {
    forall r :: Describes(r, t, prefix) <==> Describes(r, u, prefix)
  }

  /** The walk lists exactly the content. */
  lemma {:induction false} WalkListsContent(t: Tree, prefix: string, r: Record)
    requires WellFormed(t)
    ensures r in Walk(t, prefix) <==> Describes(r, t, prefix)
    decreases t, |t.dirs| + 1
  {
    SortByNameSorts(t.dirs);
    SortByNameSorts(t.files);
    var dirs, files := SortByName(t.dirs), SortByName(t.files);
    WalkEachListsContent(t, dirs, prefix, r);
    RecordsOfListing(dirs, files, prefix, r);
    assert r in Walk(t, prefix) <==>
           r in DirectoryRecords(dirs, prefix) || r in FileRecords(files, prefix) || r in WalkEach(t, dirs, prefix);
    assert forall d :: d in t.dirs <==> d in dirs;
    assert forall f :: f in t.files <==> f in files;
  }

  lemma {:induction false} WalkEachListsContent(t: Tree, dirs: seq<Named<Directory>>, prefix: string, r: Record)
    requires WellFormed(t) && |dirs| <= |t.dirs| && forall d :: d in dirs ==> d in t.dirs
    ensures r in WalkEach(t, dirs, prefix)
       <==> exists d :: d in dirs && Describes(r, d.item.tree, Below(prefix, d.name))
    decreases t, |dirs|
  {
    if dirs != [] {
      assert dirs == [dirs[0]] + dirs[1..];
      assert dirs[0] in t.dirs;
      WalkListsContent(dirs[0].item.tree, Below(prefix, dirs[0].name), r);
      WalkEachListsContent(t, dirs[1..], prefix, r);
    }
  }

  // ---- the stream is canonical -------------------------------------------------------------

  /** One path cannot run through two different names of the same directory. */
  lemma SlashSeparates(prefix: string, m: string, n: string, path: string)
    requires NoSlash(m) && NoSlash(n)
    requires Below(prefix, m) <= path && Below(prefix, n) <= path
    ensures m == n
  {
    var k := |prefix|;
    assert m == path[k..k + |m|] && n == path[k..k + |n|];
    assert path[k + |m|] == '/' && path[k + |n|] == '/';
  }

  /** Every path described below a directory properly extends that directory's path. */
  lemma {:induction false} DescribedPathsExtend(r: Record, t: Tree, prefix: string)
    requires WellFormed(t) && Describes(r, t, prefix)
    ensures prefix < r.path
    decreases t
  {
    if d :| d in t.dirs && Describes(r, d.item.tree, Below(prefix, d.name)) {
      DescribedPathsExtend(r, d.item.tree, Below(prefix, d.name));
    }
  }

  lemma BelowHasSlash(r: Record, d: Named<Directory>, t: Tree, prefix: string)
    requires WellFormed(t) && d in t.dirs && Describes(r, d.item.tree, Below(prefix, d.name))
    ensures Below(prefix, d.name) <= r.path
    ensures |prefix| + |d.name| < |r.path| && r.path[|prefix| + |d.name|] == '/'
  {
    DescribedPathsExtend(r, d.item.tree, Below(prefix, d.name));
    assert Below(prefix, d.name)[|prefix| + |d.name|] == '/';
  }

  /** A path without a further slash is listed in the directory itself. */
  lemma ListedHere(n: string, r: Record, t: Tree, prefix: string)
    requires WellFormed(t) && NoSlash(n) && r.path == prefix + n && Describes(r, t, prefix)
    ensures r.DirectoryRecord? ==> exists d :: d in t.dirs && d.name == n
    ensures r.FileRecord? ==>
              exists f :: f in t.files && f.name == n && f.item.size == r.size && f.item.digest == r.digest
  {
    if d :| d in t.dirs && Describes(r, d.item.tree, Below(prefix, d.name)) {
      BelowHasSlash(r, d, t, prefix);
    } else if d :| d in t.dirs && r == DirectoryRecord(prefix + d.name) {
      assert n == r.path[|prefix|..] == d.name;
    } else {
      var f :| f in t.files && r == FileRecordOf(f, prefix);
      assert n == r.path[|prefix|..] == f.name;
    }
  }

  lemma ListedIsNotBelow(prefix: string, n: string, name: string)
    requires NoSlash(n)
    ensures !(Below(prefix, name) <= prefix + n)
  {
    var k := |prefix| + |name|;
    assert Below(prefix, name)[k] == '/';
    if k < |prefix + n| {
      assert (prefix + n)[k] == n[|name|];
    }
  }

  /** Whatever the tree describes under the path of a sub-directory lies below that sub-directory. */
  lemma DescribedUnder(r: Record, d: Named<Directory>, t: Tree, prefix: string)
    requires WellFormed(t) && d in t.dirs && Describes(r, t, prefix) && Below(prefix, d.name) < r.path
    ensures Describes(r, d.item.tree, Below(prefix, d.name))
  {
    if e :| e in t.dirs && Describes(r, e.item.tree, Below(prefix, e.name)) {
      BelowHasSlash(r, e, t, prefix);
      SlashSeparates(prefix, d.name, e.name, r.path);
      SameNameSameItem(t.dirs, d, e);
    } else if e :| e in t.dirs && r == DirectoryRecord(prefix + e.name) {
      ListedIsNotBelow(prefix, e.name, d.name);
    } else {
      var f :| f in t.files && r == FileRecordOf(f, prefix);
      ListedIsNotBelow(prefix, f.name, d.name);
    }
  }

  /** What lies below one sub-directory is what the whole tree describes under its path. */
  lemma DescribedBelow(r: Record, d: Named<Directory>, t: Tree, prefix: string)
    requires WellFormed(t) && d in t.dirs
    ensures Describes(r, d.item.tree, Below(prefix, d.name))
       <==> Describes(r, t, prefix) && Below(prefix, d.name) < r.path
  {
    if Describes(r, d.item.tree, Below(prefix, d.name)) {
      DescribedPathsExtend(r, d.item.tree, Below(prefix, d.name));
    } else if Describes(r, t, prefix) && Below(prefix, d.name) < r.path {
      DescribedUnder(r, d, t, prefix);
    }
  }

  lemma SameSubtreeContent(t: Tree, u: Tree, d: Named<Directory>, e: Named<Directory>, prefix: string)
    requires WellFormed(t) && WellFormed(u) && SameContent(t, u, prefix)
    requires d in t.dirs && e in u.dirs && d.name == e.name
    ensures SameContent(d.item.tree, e.item.tree, Below(prefix, d.name))
  {
    forall r ensures Describes(r, d.item.tree, Below(prefix, d.name))
      <==> Describes(r, e.item.tree, Below(prefix, d.name)) {
      DescribedBelow(r, d, t, prefix);
      DescribedBelow(r, e, u, prefix);
      assert Describes(r, t, prefix) <==> Describes(r, u, prefix);
    }
  }

  /** Sorted listings of the same names agree position by position. */
  lemma SortedListingsAgree<T>(s: seq<Named<T>>, t: seq<Named<T>>)
    requires DistinctNames(s) && DistinctNames(t)
    requires forall x :: x in s ==> exists y :: y in t && y.name == x.name
    requires forall y :: y in t ==> exists x :: x in s && x.name == y.name
    ensures Names(SortByName(s)) == Names(SortByName(t))
  {
    SortByNameSorts(s);
    SortByNameSorts(t);
    NamesInclude(SortByName(s), SortByName(t));
    NamesInclude(SortByName(t), SortByName(s));
    SortedTextUnique(Names(SortByName(s)), Names(SortByName(t)));
  }

  lemma NamesInclude<T>(s: seq<Named<T>>, t: seq<Named<T>>)
    requires forall x :: x in s ==> exists y :: y in t && y.name == x.name
    ensures Elements(Names(s)) <= Elements(Names(t))
  {
    forall n | n in Elements(Names(s)) ensures n in Elements(Names(t)) {
      var i :| 0 <= i < |s| && Names(s)[i] == n;
      var y :| y in t && y.name == s[i].name;
      var j :| 0 <= j < |t| && t[j] == y;
      assert Names(t)[j] == n;
    }
  }

  lemma SameListedNames(t: Tree, u: Tree, prefix: string)
    requires WellFormed(t) && WellFormed(u) && SameContent(t, u, prefix)
    ensures forall d :: d in t.dirs ==> exists e :: e in u.dirs && e.name == d.name
    ensures forall f :: f in t.files ==>
              exists g :: g in u.files && g.name == f.name && FileRecordOf(g, prefix) == FileRecordOf(f, prefix)
  {
    forall d | d in t.dirs ensures exists e :: e in u.dirs && e.name == d.name {
      var r := DirectoryRecord(prefix + d.name);
      assert Describes(r, t, prefix);
      ListedHere(d.name, r, u, prefix);
    }
    forall f | f in t.files
      ensures exists g :: g in u.files && g.name == f.name && FileRecordOf(g, prefix) == FileRecordOf(f, prefix)
    {
      var r := FileRecordOf(f, prefix);
      assert Describes(r, t, prefix);
      ListedHere(f.name, r, u, prefix);
    }
  }

  /** Canonical: trees with the same content are walked identically, however they were enumerated. */
  lemma {:induction false} SameContentSameWalk(t: Tree, u: Tree, prefix: string)
    requires WellFormed(t) && WellFormed(u) && SameContent(t, u, prefix)
    ensures Walk(t, prefix) == Walk(u, prefix)
    decreases t, |t.dirs| + 1
  {
    SameListedNames(t, u, prefix);
    SameListedNames(u, t, prefix);
    SortedListingsAgree(t.dirs, u.dirs);
    SortedListingsAgree(t.files, u.files);
    SortByNameSorts(t.dirs);
    SortByNameSorts(u.dirs);
    var dt, du := SortByName(t.dirs), SortByName(u.dirs);
    assert forall i :: 0 <= i < |dt| ==> Names(dt)[i] == Names(du)[i];
    assert DirectoryRecords(dt, prefix) == DirectoryRecords(du, prefix);
    SameFileRecords(t, u, prefix);
    SameContentSameWalkEach(t, u, dt, du, prefix);
  }

  lemma SameNameSameItem<T>(s: seq<Named<T>>, x: Named<T>, y: Named<T>)
    requires DistinctNames(s) && x in s && y in s && x.name == y.name
    ensures x == y
  {
    var a, b :| 0 <= a < |s| && 0 <= b < |s| && s[a] == x && s[b] == y;
  }

  lemma SameFileRecords(t: Tree, u: Tree, prefix: string)
    requires WellFormed(t) && WellFormed(u) && SameContent(t, u, prefix)
    requires Names(SortByName(t.files)) == Names(SortByName(u.files))
    ensures FileRecords(SortByName(t.files), prefix) == FileRecords(SortByName(u.files), prefix)
  {
    SameListedNames(t, u, prefix);
    SortByNameSorts(t.files);
    SortByNameSorts(u.files);
    var ft, fu := SortByName(t.files), SortByName(u.files);
    forall i | 0 <= i < |ft| ensures FileRecordOf(ft[i], prefix) == FileRecordOf(fu[i], prefix) {
      assert ft[i] in t.files && fu[i] in u.files;
      assert Names(ft)[i] == Names(fu)[i];
      var g :| g in u.files && g.name == ft[i].name && FileRecordOf(g, prefix) == FileRecordOf(ft[i], prefix);
      SameNameSameItem(u.files, g, fu[i]);
    }
  }

  lemma SameNamesTail<T>(s: seq<Named<T>>, t: seq<Named<T>>)
    requires Names(s) == Names(t) && s != []
    ensures |s| == |t| && s[0].name == t[0].name && Names(s[1..]) == Names(t[1..])
  {
    assert s[0].name == Names(s)[0] && t[0].name == Names(t)[0];
    assert Names(s[1..]) == Names(s)[1..] && Names(t[1..]) == Names(t)[1..];
  }

  lemma {:induction false} SameContentSameWalkEach(
    t: Tree, u: Tree, dt: seq<Named<Directory>>, du: seq<Named<Directory>>, prefix: string)
    requires WellFormed(t) && WellFormed(u) && SameContent(t, u, prefix)
    requires |dt| <= |t.dirs| && |du| <= |u.dirs| && Names(dt) == Names(du)
    requires forall d :: d in dt ==> d in t.dirs
    requires forall d :: d in du ==> d in u.dirs
    ensures WalkEach(t, dt, prefix) == WalkEach(u, du, prefix)
    decreases t, |dt|
  {
    if dt != [] {
      SameNamesTail(dt, du);
      assert dt[0] in t.dirs && du[0] in u.dirs;
      SameSubtreeContent(t, u, dt[0], du[0], prefix);
      SameContentSameWalk(dt[0].item.tree, du[0].item.tree, Below(prefix, dt[0].name));
      SameContentSameWalkEach(t, u, dt[1..], du[1..], prefix);
    }
  }

  // ---- the encoding and its decoder --------------------------------------------------------

  function Power256(k: nat): nat {
    if k == 0 then 1 else 256 * Power256(k - 1)
  }

  /** `n.to_bytes(k, "big")`. */
  function BigEndian(n: nat, k: nat): (s: string)
    ensures |s| == k
  {
    if k == 0 then "" else BigEndian(n / 256, k - 1) + [(n % 256) as char]
  }

  function FromBigEndian(s: string): nat {
    if s == "" then 0 else 256 * FromBigEndian(s[..|s| - 1]) + s[|s| - 1] as nat
  }

  lemma {:induction false} BigEndianRoundTrip(n: nat, k: nat)
    requires n < Power256(k)
    ensures FromBigEndian(BigEndian(n, k)) == n
  {
    if k > 0 {
      BigEndianRoundTrip(n / 256, k - 1);
      var s := BigEndian(n, k);
      assert s[..|s| - 1] == BigEndian(n / 256, k - 1);
    }
  }

  lemma WordRoundTrip(n: nat)
    requires n < WORD_LIMIT
    ensures FromBigEndian(BigEndian(n, 8)) == n
  {
    assert Power256(2) == 0x1_0000;
    assert Power256(4) == 0x1_0000_0000;
    assert Power256(6) == 0x1_0000_0000_0000;
    assert Power256(8) == WORD_LIMIT;
    BigEndianRoundTrip(n, 8);
  }

  predicate Fits(r: Record) {
    && |r.path| < WORD_LIMIT
    && (r.FileRecord? ==> r.size < WORD_LIMIT && |r.digest| == DIGEST_BYTES)
  }

  predicate AllFit(rs: seq<Record>) {
    forall r :: r in rs ==> Fits(r)
  }

  /** The successive `update` calls for one record. */
  function Encode(r: Record): string {
    match r
    case DirectoryRecord(path) => "D" + BigEndian(|path|, 8) + path
    case FileRecord(path, size, digest) => "F" + BigEndian(|path|, 8) + path + BigEndian(size, 8) + digest
  }

  /** The codes of the first n records, one after the other. */
  function EncodeFirst(encode: Record -> string, rs: seq<Record>, n: nat): string
    requires n <= |rs|
  {
    if n == 0 then "" else EncodeFirst(encode, rs, n - 1) + encode(rs[n - 1])
  }

  function EncodeAll(rs: seq<Record>): string {
    EncodeFirst(Encode, rs, |rs|)
  }

  function SizeOf(r: Record): nat {
    match r case DirectoryRecord(_) => 0 case FileRecord(_, size, _) => size
  }

  function BytesFirst(rs: seq<Record>, n: nat): nat
    requires n <= |rs|
  {
    if n == 0 then 0 else BytesFirst(rs, n - 1) + SizeOf(rs[n - 1])
  }

  function Bytes(rs: seq<Record>): nat {
    BytesFirst(rs, |rs|)
  }

  function Trailer(entries: nat, byteLength: nat): string {
    "E" + BigEndian(entries, 8) + BigEndian(byteLength, 8)
  }

  function StreamOf(rs: seq<Record>): string {
    HEADER + (EncodeAll(rs) + Trailer(|rs|, Bytes(rs)))
  }

  /** The first byte of a word counts most. */
  lemma {:induction false} FirstByteCountsMost(c: char, s: string)
    ensures FromBigEndian([c] + s) == c as nat * Power256(|s|) + FromBigEndian(s)
  {
    if s == [] {
      assert [c] + s == [c] && [c][..0] == [];
    } else {
      var n := |s| - 1;
      assert ([c] + s)[..|s|] == [c] + s[..n];
      FirstByteCountsMost(c, s[..n]);
      assert 256 * (c as nat * Power256(n)) == c as nat * (256 * Power256(n));
    }
  }

  /** A word of eight bytes that holds a small number. */
  function SmallWord(n: nat): string
    requires n < 256
  {
    "\0\0\0\0\0\0\0" + [n as char]
  }

  lemma {:induction false} ZeroBytes(k: nat)
    ensures forall i :: 0 <= i < k ==> BigEndian(0, k)[i] == '\0'
  {
    if k > 0 {
      ZeroBytes(k - 1);
    }
  }

  lemma SmallWords(n: nat)
    requires n < 256
    ensures BigEndian(n, 8) == SmallWord(n)
  {
    ZeroBytes(7);
    assert BigEndian(n, 8) == BigEndian(0, 7) + [n as char];
    assert BigEndian(0, 7) == "\0\0\0\0\0\0\0";
  }

  /** The bytes hashed for a directory `a` with one file `b` of five bytes. */
  lemma StreamOfOneFile(digest: string)
    requires |digest| == 32
    ensures StreamOf([DirectoryRecord("a"), FileRecord("a/b", 5, digest)])
         == "white-hat-agent-content-tree\0" + [1 as char]
            + ("D" + SmallWord(1) + "a" + ("F" + SmallWord(3) + "a/b" + SmallWord(5) + digest)
               + ("E" + SmallWord(2) + SmallWord(5)))
  {
    var rs := [DirectoryRecord("a"), FileRecord("a/b", 5, digest)];
    SmallWords(1);
    SmallWords(2);
    SmallWords(3);
    SmallWords(5);
    assert EncodeFirst(Encode, rs, 0) == "";
    assert EncodeFirst(Encode, rs, 1) == Encode(rs[0]);
    assert EncodeAll(rs) == Encode(rs[0]) + Encode(rs[1]);
    assert BytesFirst(rs, 1) == 0 && Bytes(rs) == 5;
  }

  ghost predicate Encodable(rs: seq<Record>) {
    AllFit(rs) && |rs| < WORD_LIMIT && Bytes(rs) < WORD_LIMIT
  }

  datatype Decoded = Decoded(records: seq<Record>, entries: nat, byteLength: nat) | Malformed

  /** Reads tagged records up to the trailer. */
  function DecodeRecords(s: string): Decoded
    decreases |s|
  {
    if |s| < 9 then Malformed
    else
      var n := FromBigEndian(s[1..9]);
      if s[0] == 'E' then
        if |s| == 17 then Decoded([], n, FromBigEndian(s[9..17])) else Malformed
      else if s[0] == 'D' && 9 + n <= |s| then
        Prepend(DirectoryRecord(s[9..9 + n]), DecodeRecords(s[9 + n..]))
      else if s[0] == 'F' && 9 + n + 40 <= |s| then
        Prepend(FileRecord(s[9..9 + n], FromBigEndian(s[9 + n..9 + n + 8]), s[9 + n + 8..9 + n + 40]),
                DecodeRecords(s[9 + n + 40..]))
      else Malformed
  }

  function Prepend(r: Record, d: Decoded): Decoded {
    if d.Decoded? then d.(records := [r] + d.records) else d
  }

  lemma DecodeDirectory(length: string, path: string, rest: string)
    requires |length| == 8 && FromBigEndian(length) == |path|
    ensures DecodeRecords("D" + length + path + rest) == Prepend(DirectoryRecord(path), DecodeRecords(rest))
  {
    var s := "D" + length + path + rest;
    assert s[1..9] == length && s[9..9 + |path|] == path && s[9 + |path|..] == rest;
  }

  lemma DecodeFile(length: string, path: string, size: string, digest: string, rest: string)
    requires |length| == |size| == 8 && FromBigEndian(length) == |path| && |digest| == DIGEST_BYTES
    ensures DecodeRecords("F" + length + path + size + digest + rest)
         == Prepend(FileRecord(path, FromBigEndian(size), digest), DecodeRecords(rest))
  {
    var n, s := 9 + |path|, "F" + length + path + size + digest + rest;
    assert s[1..9] == length && s[9..n] == path && s[n..n + 8] == size;
    assert s[n + 8..n + 40] == digest && s[n + 40..] == rest;
  }

  lemma DecodeOne(r: Record, rest: string)
    requires Fits(r)
    ensures DecodeRecords(Encode(r) + rest) == Prepend(r, DecodeRecords(rest))
  {
    WordRoundTrip(|r.path|);
    match r
    case DirectoryRecord(path) =>
      DecodeDirectory(BigEndian(|path|, 8), path, rest);
    case FileRecord(path, size, digest) =>
      WordRoundTrip(size);
      DecodeFile(BigEndian(|path|, 8), path, BigEndian(size, 8), digest, rest);
  }

  lemma {:induction false} EncodeHead(encode: Record -> string, rs: seq<Record>, n: nat)
    requires 0 < n <= |rs|
    ensures EncodeFirst(encode, rs, n) == encode(rs[0]) + EncodeFirst(encode, rs[1..], n - 1)
  {
    if n > 1 {
      EncodeHead(encode, rs, n - 1);
      Associate(encode(rs[0]), EncodeFirst(encode, rs[1..], n - 2), encode(rs[n - 1]));
    }
  }

  lemma DecodeTrailer(entries: nat, byteLength: nat)
    requires entries < WORD_LIMIT && byteLength < WORD_LIMIT
    ensures DecodeRecords(Trailer(entries, byteLength)) == Decoded([], entries, byteLength)
  {
    var tail := Trailer(entries, byteLength);
    assert tail[1..9] == BigEndian(entries, 8) && tail[9..17] == BigEndian(byteLength, 8);
    WordRoundTrip(entries);
    WordRoundTrip(byteLength);
  }

  /** The decoder undoes one code in front of anything. */
  ghost predicate Undoes(decode: string -> Decoded, encode: Record -> string) {
    forall r, rest {:trigger decode(encode(r) + rest)} :: Fits(r) ==>
        decode(encode(r) + rest) == Prepend(r, decode(rest))
  }

  /** Then it reads records in front of a decodable tail back one by one. */
  lemma {:induction false} DecodeOnto(
    decode: string -> Decoded, encode: Record -> string, rs: seq<Record>, tail: string, entries: nat, byteLength: nat)
    requires Undoes(decode, encode) && AllFit(rs) && decode(tail) == Decoded([], entries, byteLength)
    ensures decode(EncodeFirst(encode, rs, |rs|) + tail) == Decoded(rs, entries, byteLength)
    decreases |rs|
  {
    if rs == [] {
      assert EncodeFirst(encode, rs, |rs|) + tail == tail;
    } else {
      var rest := EncodeFirst(encode, rs[1..], |rs| - 1) + tail;
      DecodeOnto(decode, encode, rs[1..], tail, entries, byteLength);
      EncodeHead(encode, rs, |rs|);
      Associate(encode(rs[0]), EncodeFirst(encode, rs[1..], |rs| - 1), tail);
      assert decode(encode(rs[0]) + rest) == Prepend(rs[0], decode(rest));
      assert rs == [rs[0]] + rs[1..];
    }
  }

  lemma RecordsAreUndone()
    ensures Undoes(DecodeRecords, Encode)
  {
    forall r, rest | Fits(r)
      ensures DecodeRecords(Encode(r) + rest) == Prepend(r, DecodeRecords(rest))
    {
      DecodeOne(r, rest);
    }
  }

  lemma DecodeInverts(rs: seq<Record>, entries: nat, byteLength: nat)
    requires AllFit(rs) && entries < WORD_LIMIT && byteLength < WORD_LIMIT
    ensures DecodeRecords(EncodeAll(rs) + Trailer(entries, byteLength)) == Decoded(rs, entries, byteLength)
  {
    DecodeTrailer(entries, byteLength);
    RecordsAreUndone();
    DecodeOnto(DecodeRecords, Encode, rs, Trailer(entries, byteLength), entries, byteLength);
  }

  lemma StripPrefix(h: string, s: string)
    ensures h <= h + s && (h + s)[|h|..] == s
  {
  }

  function Decode(s: string): Decoded {
    if HEADER <= s then DecodeRecords(s[|HEADER|..]) else Malformed
  }

  /** The decoder inverts the encoder. */
  lemma DecodeStream(rs: seq<Record>)
    requires Encodable(rs)
    ensures Decode(StreamOf(rs)) == Decoded(rs, |rs|, Bytes(rs))
  {
    StripPrefix(HEADER, EncodeAll(rs) + Trailer(|rs|, Bytes(rs)));
    DecodeInverts(rs, |rs|, Bytes(rs));
  }

  /** Two trees feed the hash the same stream exactly when they have the same paths, kinds, sizes and
      file digests. */
  lemma StreamIdentifiesContent(t: Tree, u: Tree)
    requires WellFormed(t) && WellFormed(u) && Encodable(Walk(t, "")) && Encodable(Walk(u, ""))
    ensures StreamOf(Walk(t, "")) == StreamOf(Walk(u, "")) <==> SameContent(t, u, "")
  {
    var a, b := Walk(t, ""), Walk(u, "");
    if StreamOf(a) == StreamOf(b) {
      DecodeStream(a);
      DecodeStream(b);
      forall r ensures Describes(r, t, "") <==> Describes(r, u, "") {
        WalkListsContent(t, "", r);
        WalkListsContent(u, "", r);
      }
    }
    if SameContent(t, u, "") { SameContentSameWalk(t, u, ""); }
  }

  // ---- the hashing walk --------------------------------------------------------------------

  ghost predicate AllReal(t: Tree)
    decreases t
  {
    RealItems(t) && forall d :: d in t.dirs ==> AllReal(d.item.tree)
  }

  lemma {:induction false} BytesFirstBound(rs: seq<Record>, n: nat)
    requires n <= |rs|
    ensures BytesFirst(rs, n) <= Bytes(rs)
    decreases |rs| - n
  {
    if n < |rs| {
      BytesFirstBound(rs, n + 1);
    }
  }

  lemma NextMilestone(encode: Record -> string, rs: seq<Record>, k: nat)
    requires k < |rs|
    ensures HEADER + EncodeFirst(encode, rs, k + 1) == HEADER + EncodeFirst(encode, rs, k) + encode(rs[k])
  {
    Associate(HEADER, EncodeFirst(encode, rs, k), encode(rs[k]));
  }

  /** The digest input after each number of records. */
  ghost function Milestones(encode: Record -> string, rs: seq<Record>): (ms: seq<string>)
    ensures |ms| == |rs| + 1 && ms[0] == HEADER && ms[|rs|] == HEADER + EncodeFirst(encode, rs, |rs|)
    ensures forall k :: 0 <= k <= |rs| ==> ms[k] == HEADER + EncodeFirst(encode, rs, k)
  {
    seq(|rs| + 1, k requires 0 <= k <= |rs| => HEADER + EncodeFirst(encode, rs, k))
  }

  /** Why a walk that has to feed `rs` cannot succeed under the given limits. */
  ghost predicate Explains(e: Error, rs: seq<Record>, maxEntries: nat, maxBytes: nat) {
    match e
    case TooManyEntries => |rs| > maxEntries
    case TooManyBytes => Bytes(rs) > maxBytes
    case Overflow => !Encodable(rs)
    case _ => false
  }

  /** Marks the positions at which a schedule is to be looked up; it keeps the verifier from
      instantiating `Scheduled` at every index it meets. */
  ghost predicate Position(i: int) {
    true
  }

  /** The plan has the records rs from position `at` on. */
  ghost predicate Scheduled(plan: seq<Record>, at: nat, rs: seq<Record>) {
    && at + |rs| <= |plan|
    && forall i {:trigger Position(i)} :: Position(i) && 0 <= i < |rs| ==> plan[at + i] == rs[i]
  }

  lemma ScheduledSplit(plan: seq<Record>, at: nat, a: seq<Record>, b: seq<Record>)
    requires Scheduled(plan, at, a + b)
    ensures Scheduled(plan, at, a) && Scheduled(plan, at + |a|, b)
  {
    forall i | 0 <= i < |b| ensures plan[at + |a| + i] == b[i] {
      assert Position(|a| + i) && (a + b)[|a| + i] == b[i];
    }
  }

  ghost predicate RealListing(dirs: seq<Named<Directory>>, files: seq<Named<File>>) {
    && (forall i :: 0 <= i < |dirs| ==> !dirs[i].item.symlink)
    && (forall i :: 0 <= i < |files| ==> files[i].item.regular)
  }

  // ---- the steps of `os.walk` --------------------------------------------------------------

  /** One tuple yielded by `os.walk`, after both lists were sorted in place. */
  datatype Step = Step(prefix: string, dirs: seq<Named<Directory>>, files: seq<Named<File>>)

  function OsWalk(t: Tree, prefix: string): seq<Step>
    requires WellFormed(t)
    decreases t, |t.dirs| + 1
  {
    SortByNameSorts(t.dirs);
    var dirs := SortByName(t.dirs);
    [Step(prefix, dirs, SortByName(t.files))] + OsWalkEach(t, dirs, prefix)
  }

  function OsWalkEach(t: Tree, dirs: seq<Named<Directory>>, prefix: string): seq<Step>
    requires WellFormed(t) && |dirs| <= |t.dirs| && forall d :: d in dirs ==> d in t.dirs
    decreases t, |dirs|
  {
    if dirs == [] then []
    else
      assert dirs[0] in t.dirs;
      OsWalk(dirs[0].item.tree, prefix + dirs[0].name + "/") + OsWalkEach(t, dirs[1..], prefix)
  }

  ghost function StepRecords(s: Step): seq<Record> {
    Listing(s.dirs, s.files, s.prefix)
  }

  ghost function RecordsOf(steps: seq<Step>): seq<Record> {
    if steps == [] then [] else StepRecords(steps[0]) + RecordsOf(steps[1..])
  }

  ghost predicate GoodStep(s: Step) {
    forall i :: 0 <= i < |s.files| ==> |s.files[i].item.digest| == DIGEST_BYTES
  }

  ghost predicate RealSteps(steps: seq<Step>) {
    forall s :: s in steps ==> RealListing(s.dirs, s.files)
  }

  lemma {:induction false} RecordsOfConcat(a: seq<Step>, b: seq<Step>)
    ensures RecordsOf(a + b) == RecordsOf(a) + RecordsOf(b)
  {
    if a == [] {
      assert a + b == b;
    } else {
      RecordsOfConcat(a[1..], b);
      assert (a + b)[1..] == a[1..] + b && (a + b)[0] == a[0];
    }
  }

  /** Iterating over the steps of `os.walk` yields the walk. */
  lemma {:induction false} OsWalkYieldsWalk(t: Tree, prefix: string)
    requires WellFormed(t)
    ensures RecordsOf(OsWalk(t, prefix)) == Walk(t, prefix)
    ensures forall s :: s in OsWalk(t, prefix) ==> GoodStep(s)
    decreases t, |t.dirs| + 1
  {
    SortByNameSorts(t.dirs);
    SortByNameSorts(t.files);
    var dirs, files := SortByName(t.dirs), SortByName(t.files);
    OsWalkEachYieldsWalk(t, dirs, prefix);
    var first := Step(prefix, dirs, files);
    assert GoodStep(first) by {
      assert forall i :: 0 <= i < |files| ==> files[i] in files;
    }
    assert OsWalk(t, prefix)[1..] == OsWalkEach(t, dirs, prefix);
  }

  lemma {:induction false} OsWalkEachYieldsWalk(t: Tree, dirs: seq<Named<Directory>>, prefix: string)
    requires WellFormed(t) && |dirs| <= |t.dirs| && forall d :: d in dirs ==> d in t.dirs
    ensures RecordsOf(OsWalkEach(t, dirs, prefix)) == WalkEach(t, dirs, prefix)
    ensures forall s :: s in OsWalkEach(t, dirs, prefix) ==> GoodStep(s)
    decreases t, |dirs|
  {
    if dirs != [] {
      assert dirs[0] in t.dirs;
      OsWalkYieldsWalk(dirs[0].item.tree, Below(prefix, dirs[0].name));
      OsWalkEachYieldsWalk(t, dirs[1..], prefix);
      RecordsOfConcat(OsWalk(dirs[0].item.tree, Below(prefix, dirs[0].name)), OsWalkEach(t, dirs[1..], prefix));
    }
  }

  lemma RealStepsSplit(a: seq<Step>, b: seq<Step>)
    ensures RealSteps(a + b) <==> RealSteps(a) && RealSteps(b)
    ensures forall s :: RealSteps([s]) <==> RealListing(s.dirs, s.files)
  {
    assert forall s :: s in a + b <==> s in a || s in b;
    forall s: Step ensures RealSteps([s]) <==> RealListing(s.dirs, s.files) {
      assert s in [s];
    }
  }

  ghost predicate RealItems(t: Tree) {
    && (forall d :: d in t.dirs ==> !d.item.symlink)
    && (forall f :: f in t.files ==> f.item.regular)
  }

  lemma RealItemsListed(t: Tree, dirs: seq<Named<Directory>>, files: seq<Named<File>>)
    requires forall d :: d in t.dirs <==> d in dirs
    requires forall f :: f in t.files <==> f in files
    ensures RealItems(t) <==> RealListing(dirs, files)
  {
    assert forall i :: 0 <= i < |dirs| ==> dirs[i] in dirs;
    assert forall i :: 0 <= i < |files| ==> files[i] in files;
  }

  /** A tree is free of links and special files exactly if every step of the walk is. */
  lemma {:induction false} RealTreeRealSteps(t: Tree, prefix: string)
    requires WellFormed(t)
    ensures AllReal(t) <==> RealSteps(OsWalk(t, prefix))
    decreases t, |t.dirs| + 1
  {
    SortByNameSorts(t.dirs);
    SortByNameSorts(t.files);
    var dirs, files := SortByName(t.dirs), SortByName(t.files);
    RealEachRealSteps(t, dirs, prefix);
    assert forall d :: d in t.dirs <==> d in dirs;
    assert forall f :: f in t.files <==> f in files;
    RealItemsListed(t, dirs, files);
    var first := Step(prefix, dirs, files);
    RealStepsSplit([first], OsWalkEach(t, dirs, prefix));
  }

  lemma {:induction false} RealEachRealSteps(t: Tree, dirs: seq<Named<Directory>>, prefix: string)
    requires WellFormed(t) && |dirs| <= |t.dirs| && forall d :: d in dirs ==> d in t.dirs
    ensures (forall d :: d in dirs ==> AllReal(d.item.tree)) <==> RealSteps(OsWalkEach(t, dirs, prefix))
    decreases t, |dirs|
  {
    if dirs != [] {
      assert dirs[0] in t.dirs;
      assert dirs == [dirs[0]] + dirs[1..];
      var a, b := OsWalk(dirs[0].item.tree, prefix + dirs[0].name + "/"), OsWalkEach(t, dirs[1..], prefix);
      RealTreeRealSteps(dirs[0].item.tree, prefix + dirs[0].name + "/");
      RealEachRealSteps(t, dirs[1..], prefix);
      RealStepsSplit(a, b);
    }
  }

  /** The records from step `k` on are those of that step, then those of the later ones. */
  lemma NextStepScheduled(plan: seq<Record>, at: nat, steps: seq<Step>, k: nat)
    requires k < |steps| && Scheduled(plan, at, RecordsOf(steps[k..]))
    ensures var n := |steps[k].dirs| + |steps[k].files|;
            && Scheduled(plan, at, Listing(steps[k].dirs, steps[k].files, steps[k].prefix))
            && Scheduled(plan, at + n, RecordsOf(steps[k + 1..]))
            && |RecordsOf(steps[k..])| == n + |RecordsOf(steps[k + 1..])|
  {
    assert steps[k..][1..] == steps[k + 1..];
    ScheduledSplit(plan, at, StepRecords(steps[k]), RecordsOf(steps[k + 1..]));
  }

  datatype Outcome = Done | Stopped(error: Error)

  class TreeHasher {
    const maxEntries: nat
    const maxBytes: nat
    /** Every record the whole walk has to feed; `entries` of them have been fed. */
    ghost const plan: seq<Record>
    /** The digest input after each number of records. */
    ghost const milestones: seq<string>
    /** Everything passed to `digest.update` so far. */
    var stream: string
    var entries: nat
    var byteLength: nat

    ghost predicate Valid() reads this {
      && entries <= maxEntries && entries <= |plan|
      && byteLength <= maxBytes
      && |milestones| == |plan| + 1
      && stream == milestones[entries]
      && (forall k {:trigger Encode(plan[k])} :: 0 <= k < |plan| ==>
            milestones[k + 1] == milestones[k] + Encode(plan[k]))
      && byteLength == BytesFirst(plan, entries)
      && (forall i {:trigger Fits(plan[i])} :: 0 <= i < entries ==> Fits(plan[i]))
    }

    ghost predicate Hopeless(e: Error) {
      Explains(e, plan, maxEntries, maxBytes)
    }

    constructor (maxEntries: nat, maxBytes: nat, ghost plan: seq<Record>)
      ensures Valid() && entries == 0 && this.plan == plan
      ensures this.maxEntries == maxEntries && this.maxBytes == maxBytes
      ensures milestones[|plan|] == HEADER + EncodeAll(plan)
    {
      this.maxEntries, this.maxBytes, this.plan := maxEntries, maxBytes, plan;
      milestones := Milestones(Encode, plan);
      stream := HEADER;
      entries, byteLength := 0, 0;
      new;
      forall k | 0 <= k < |plan| ensures milestones[k + 1] == milestones[k] + Encode(plan[k]) {
        NextMilestone(Encode, plan, k);
      }
    }

    method AddDirectory(path: string) returns (outcome: Outcome)
      requires Valid() && entries < |plan| && plan[entries] == DirectoryRecord(path)
      modifies this
      ensures outcome.Done? ==> Valid() && entries == old(entries) + 1
      ensures outcome.Stopped? ==> Hopeless(outcome.error)
    {
      ghost var r := plan[entries];
      assert milestones[entries + 1] == milestones[entries] + Encode(r);
      entries := entries + 1;
      if entries > maxEntries { return Stopped(TooManyEntries); }
      if |path| >= WORD_LIMIT { assert !Fits(r) && r in plan; return Stopped(Overflow); }
      stream := stream + ("D" + BigEndian(|path|, 8) + path);
      return Done;
    }

    method AddFile(path: string, file: File) returns (outcome: Outcome)
      requires Valid() && |file.digest| == DIGEST_BYTES
      requires entries < |plan| && plan[entries] == FileRecord(path, file.size, file.digest)
      modifies this
      ensures outcome.Done? ==> Valid() && entries == old(entries) + 1
      ensures outcome.Stopped? ==> Hopeless(outcome.error)
    {
      ghost var r := plan[entries];
      assert milestones[entries + 1] == milestones[entries] + Encode(r);
      entries := entries + 1;
      if entries > maxEntries { return Stopped(TooManyEntries); }
      byteLength := byteLength + file.size;
      if byteLength > maxBytes {
        BytesFirstBound(plan, entries);
        return Stopped(TooManyBytes);
      }
      if |path| >= WORD_LIMIT || file.size >= WORD_LIMIT { assert !Fits(r) && r in plan; return Stopped(Overflow); }
      stream := stream + ("F" + BigEndian(|path|, 8) + path + BigEndian(file.size, 8) + file.digest);
      return Done;
    }

    method AddDirectories(dirs: seq<Named<Directory>>, prefix: string) returns (outcome: Outcome)
      requires Valid() && Scheduled(plan, entries, DirectoryRecords(dirs, prefix))
      modifies this
      ensures outcome.Done? ==>
                Valid() && entries == old(entries) + |dirs| && forall i :: 0 <= i < |dirs| ==> !dirs[i].item.symlink
      ensures outcome.Stopped? ==>
                || Hopeless(outcome.error)
                || (outcome.error.SymbolicLink? && exists i :: 0 <= i < |dirs| && dirs[i].item.symlink)
    {
      ghost var records := DirectoryRecords(dirs, prefix);
      for i := 0 to |dirs|
        invariant Valid() && entries == old(entries) + i
        invariant forall j :: 0 <= j < i ==> !dirs[j].item.symlink
      {
        if dirs[i].item.symlink { return Stopped(SymbolicLink); }
        assert Position(i) && plan[old(entries) + i] == records[i];
        outcome := AddDirectory(prefix + dirs[i].name);
        if outcome.Stopped? { return; }
      }
      return Done;
    }

    method AddFiles(files: seq<Named<File>>, prefix: string) returns (outcome: Outcome)
      requires Valid() && Scheduled(plan, entries, FileRecords(files, prefix))
      requires forall i :: 0 <= i < |files| ==> |files[i].item.digest| == DIGEST_BYTES
      modifies this
      ensures outcome.Done? ==>
                Valid() && entries == old(entries) + |files| && forall i :: 0 <= i < |files| ==> files[i].item.regular
      ensures outcome.Stopped? ==>
                || Hopeless(outcome.error)
                || (outcome.error.SpecialFile? && exists i :: 0 <= i < |files| && !files[i].item.regular)
    {
      ghost var records := FileRecords(files, prefix);
      for i := 0 to |files|
        invariant Valid() && entries == old(entries) + i
        invariant forall j :: 0 <= j < i ==> files[j].item.regular
      {
        if !files[i].item.regular { return Stopped(SpecialFile); }
        assert Position(i) && plan[old(entries) + i] == records[i];
        outcome := AddFile(prefix + files[i].name, files[i].item);
        if outcome.Stopped? { return; }
      }
      return Done;
    }

    method AddListing(dirs: seq<Named<Directory>>, files: seq<Named<File>>, prefix: string) returns (outcome: Outcome)
      requires Valid()
      requires Scheduled(plan, entries, Listing(dirs, files, prefix))
      requires forall i :: 0 <= i < |files| ==> |files[i].item.digest| == DIGEST_BYTES
      modifies this
      ensures outcome.Done? ==>
                Valid() && entries == old(entries) + |dirs| + |files| && RealListing(dirs, files)
      ensures outcome.Stopped? ==>
                || Hopeless(outcome.error)
                || ((outcome.error.SymbolicLink? || outcome.error.SpecialFile?) && !RealListing(dirs, files))
    {
      ScheduledSplit(plan, entries, DirectoryRecords(dirs, prefix), FileRecords(files, prefix));
      outcome := AddDirectories(dirs, prefix);
      if outcome.Stopped? { return; }
      outcome := AddFiles(files, prefix);
    }

    /** Step `k` of the walk. */
    method AddStep(steps: seq<Step>, k: nat) returns (outcome: Outcome)
      requires Valid() && k < |steps| && GoodStep(steps[k]) && Scheduled(plan, entries, RecordsOf(steps[k..]))
      modifies this
      ensures outcome.Done? ==>
                && Valid() && RealListing(steps[k].dirs, steps[k].files)
                && Scheduled(plan, entries, RecordsOf(steps[k + 1..]))
                && entries + |RecordsOf(steps[k + 1..])| == old(entries) + |RecordsOf(steps[k..])|
      ensures outcome.Stopped? ==>
                || Hopeless(outcome.error)
                || ((outcome.error.SymbolicLink? || outcome.error.SpecialFile?)
                    && !RealListing(steps[k].dirs, steps[k].files))
    {
      NextStepScheduled(plan, entries, steps, k);
      outcome := AddListing(steps[k].dirs, steps[k].files, steps[k].prefix);
    }

    /** The loop over `os.walk`. */
    method AddSteps(steps: seq<Step>) returns (outcome: Outcome)
      requires Valid() && Scheduled(plan, entries, RecordsOf(steps))
      requires forall s :: s in steps ==> GoodStep(s)
      modifies this
      ensures outcome.Done? ==> Valid() && entries == old(entries) + |RecordsOf(steps)| && RealSteps(steps)
      ensures outcome.Stopped? ==>
                || Hopeless(outcome.error)
                || ((outcome.error.SymbolicLink? || outcome.error.SpecialFile?) && !RealSteps(steps))
    {
      for k := 0 to |steps|
        invariant Valid() && Scheduled(plan, entries, RecordsOf(steps[k..]))
        invariant entries + |RecordsOf(steps[k..])| == old(entries) + |RecordsOf(steps)|
        invariant forall j :: 0 <= j < k ==> RealListing(steps[j].dirs, steps[j].files)
      {
        assert steps[k] in steps;
        outcome := AddStep(steps, k);
        if outcome.Stopped? { return; }
      }
      return Done;
    }
  }

  ghost predicate WithinLimits(rs: seq<Record>, maxEntries: nat, maxBytes: nat) {
    |rs| <= maxEntries && Bytes(rs) <= maxBytes && Encodable(rs)
  }

  lemma AllFitTheirWords(rs: seq<Record>)
    requires forall i :: 0 <= i < |rs| ==> Fits(rs[i])
    ensures AllFit(rs)
  {
    forall r | r in rs ensures Fits(r) {
      var i :| 0 <= i < |rs| && rs[i] == r;
    }
  }

  method HashSteps(steps: seq<Step>, maxEntries: nat, maxBytes: nat) returns (result: Result)
    requires forall s :: s in steps ==> GoodStep(s)
    ensures var rs := RecordsOf(steps);
            match result
            case Stream(bytes) => RealSteps(steps) && WithinLimits(rs, maxEntries, maxBytes) && bytes == StreamOf(rs)
            case Failed(SymbolicLink) => !RealSteps(steps)
            case Failed(SpecialFile) => !RealSteps(steps)
            case Failed(e) => Explains(e, rs, maxEntries, maxBytes)
  {
    ghost var plan := RecordsOf(steps);
    var hasher := new TreeHasher(maxEntries, maxBytes, plan);
    var outcome := hasher.AddSteps(steps);
    if outcome.Stopped? { return Failed(outcome.error); }
    Associate(HEADER, EncodeAll(plan), Trailer(|plan|, Bytes(plan)));
    AllFitTheirWords(plan);
    if hasher.entries >= WORD_LIMIT || hasher.byteLength >= WORD_LIMIT { return Failed(Overflow); }
    return Stream(hasher.stream + Trailer(hasher.entries, hasher.byteLength));
  }

  /** The whole digest input. It exists exactly for real trees within the limits. */
  method ContentTreeStream(rootIsDirectory: bool, t: Tree, maxEntries: nat, maxBytes: nat) returns (result: Result)
    requires WellFormed(t)
    ensures var rs := Walk(t, "");
            match result
            case Stream(bytes) =>
              rootIsDirectory && AllReal(t) && WithinLimits(rs, maxEntries, maxBytes) && bytes == StreamOf(rs)
            case Failed(RootNotDirectory) => !rootIsDirectory
            case Failed(SymbolicLink) => !AllReal(t)
            case Failed(SpecialFile) => !AllReal(t)
            case Failed(e) => Explains(e, rs, maxEntries, maxBytes)
  {
    if !rootIsDirectory { return Failed(RootNotDirectory); }
    OsWalkYieldsWalk(t, "");
    RealTreeRealSteps(t, "");
    result := HashSteps(OsWalk(t, ""), maxEntries, maxBytes);
  }
}
