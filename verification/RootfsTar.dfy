/** Two walks over one root filesystem: the materialized tree and a tar stream of it. */
module RootfsTar {
  import opened Options
  import opened PosixPath
  import opened RootfsDigest
  import opened Sorting

  /** What the file system holds at a path; `data` is a regular file's content digest or a symlink's raw target. */
  datatype Node = Node(kind: Kind, mode: nat, uid: nat, gid: nat, data: Bytes)

  type Tree = map<Bytes, Node>

  datatype MemberType = Dir | Regular | Hardlink | Symbolic | Special

  /** A tar member; `content` is the digest of a regular member's data. */
  datatype Member = Member(name: Bytes, typ: MemberType, mode: nat, uid: nat, gid: nat, linkname: Bytes, content: Bytes)

  function Relative(m: Member): Bytes { CleanPath(m.name) }

  /** Paths a walk lists: no empty or "." components, and not the root. */
  predicate CleanTree(t: Tree) { forall p | p in t :: p != [] && Location(p) == p }

  function KindOf(t: MemberType): Kind {
    match t
    case Dir => Directory
    case Regular => File
    case Hardlink => File
    case Symbolic => Symlink
    case Special => Other
  }

  /** Path order as Python compares the names. */
  function Name(p: Bytes): string { seq(|p|, i requires 0 <= i < |p| => p[i] as char) }

  function PathKey(e: Entry): seq<string> { [Name(e.path)] }

  lemma NameTellsApart(p: Bytes, q: Bytes)
    requires Name(p) == Name(q)
    ensures p == q
  {
    assert |Name(p)| == |p| && |Name(q)| == |q|;
    forall i | 0 <= i < |p| ensures p[i] == q[i] {
      assert Name(p)[i] == p[i] as char && Name(q)[i] == q[i] as char;
    }
  }

  // ---------------------------------------------------------------- the tar scan

  /** `entries` and `content_digests` after a prefix of the archive. */
  datatype Scan = Scan(entries: seq<Entry>, digests: map<Bytes, Bytes>)

  function EntryOf(m: Member, digests: map<Bytes, Bytes>): Option<Entry> {
    var e := Entry(Relative(m), KindOf(m.typ), m.mode % 4096, m.uid, m.gid, []);
    match m.typ
    case Symbolic => Some(e.(payload := m.linkname))
    case Regular => Some(e.(payload := m.content))
    case Hardlink => if m.linkname in digests then Some(e.(payload := digests[m.linkname])) else None
    case _ => Some(e)
  }

  function ScanOne(m: Member, s: Scan): Option<Scan> {
    if Relative(m) == [] then Some(s)
    else match EntryOf(m, s.digests)
         case None => None
         case Some(e) =>
           Some(Scan(s.entries + [e], if m.typ == Regular then s.digests[Relative(m) := m.content] else s.digests))
  }

  function ScanAll(ms: seq<Member>): Option<Scan> {
    if ms == [] then Some(Scan([], map[]))
    else match ScanAll(ms[..|ms| - 1])
         case None => None
         case Some(s) => ScanOne(ms[|ms| - 1], s)
  }

  // ---------------------------------------------------------------- what the scan says

  /** No two members land on one path, unless both are skipped as the root. */
  predicate DistinctNames(ms: seq<Member>) {
    forall i, j | 0 <= i < j < |ms| && Location(ms[i].name) == Location(ms[j].name) ::
      Relative(ms[i]) == [] && Relative(ms[j]) == []
  }

  predicate TargetBefore(ms: seq<Member>, i: nat)
    requires i < |ms|
  {
    exists j | 0 <= j < i :: ms[j].typ == Regular && Relative(ms[j]) != [] && Relative(ms[j]) == ms[i].linkname
  }

  /** Every hardlink's raw link name is the cleaned name of a regular member before it. */
  predicate LinksResolve(ms: seq<Member>) {
    forall i | 0 <= i < |ms| :: ms[i].typ == Hardlink && Relative(ms[i]) != [] ==> TargetBefore(ms, i)
  }

  predicate Holds(ms: seq<Member>, p: Bytes, c: Bytes) {
    p != [] && exists i | 0 <= i < |ms| :: ms[i].typ == Regular && Relative(ms[i]) == p && ms[i].content == c
  }

  predicate Entered(ms: seq<Member>, digests: map<Bytes, Bytes>, e: Entry) {
    exists i | 0 <= i < |ms| :: Relative(ms[i]) != [] && EntryOf(ms[i], digests) == Some(e)
  }

  predicate DistinctPaths(es: seq<Entry>) { forall i, j | 0 <= i < j < |es| :: es[i].path != es[j].path }

  /** The digests are those of the regular members, and the entries those of all members under them. */
  ghost predicate Says(ms: seq<Member>, s: Scan) {
    && (forall p, c :: p in s.digests && s.digests[p] == c <==> Holds(ms, p, c))
    && (forall e :: e in s.entries <==> Entered(ms, s.digests, e))
    && (forall i | 0 <= i < |ms| && Relative(ms[i]) != [] :: EntryOf(ms[i], s.digests).Some?)
    && DistinctPaths(s.entries)
  }

  lemma SaysLookup(ms: seq<Member>, s: Scan, p: Bytes)
    requires Says(ms, s)
    ensures p in s.digests <==> exists c :: Holds(ms, p, c)
  {
    if p in s.digests { assert Holds(ms, p, s.digests[p]); }
  }

  lemma NamesApart(ms: seq<Member>, i: nat, j: nat)
    requires DistinctNames(ms) && i < |ms| && j < |ms| && i != j && Relative(ms[i]) != []
    ensures Relative(ms[i]) != Relative(ms[j]) && Location(ms[i].name) != Location(ms[j].name)
  {
    CleanKeepsLocation(ms[i].name);
    CleanKeepsLocation(ms[j].name);
  }

  lemma HoldsOneMore(init: seq<Member>, m: Member, p: Bytes, c: Bytes)
    ensures Holds(init + [m], p, c)
      <==> Holds(init, p, c) || (p != [] && m.typ == Regular && Relative(m) == p && m.content == c)
  {
    var ms := init + [m];
    forall i | 0 <= i < |init| ensures ms[i] == init[i] { }
    assert ms[|init|] == m;
    if Holds(init, p, c) {
      var i :| 0 <= i < |init| && init[i].typ == Regular && Relative(init[i]) == p && init[i].content == c;
      assert ms[i] == init[i];
    }
  }

  lemma EnteredOneMore(init: seq<Member>, m: Member, digests: map<Bytes, Bytes>, e: Entry)
    ensures Entered(init + [m], digests, e)
      <==> Entered(init, digests, e) || (Relative(m) != [] && EntryOf(m, digests) == Some(e))
  {
    var ms := init + [m];
    forall i | 0 <= i < |init| ensures ms[i] == init[i] { }
    assert ms[|init|] == m;
    if Entered(init, digests, e) {
      var i :| 0 <= i < |init| && Relative(init[i]) != [] && EntryOf(init[i], digests) == Some(e);
      assert ms[i] == init[i];
    }
  }

  /** A larger table answers what a smaller one answered. */
  lemma LargerTable(m: Member, small: map<Bytes, Bytes>, large: map<Bytes, Bytes>)
    requires EntryOf(m, small).Some? && forall p | p in small :: p in large && large[p] == small[p]
    ensures EntryOf(m, large) == EntryOf(m, small)
  {
  }

  lemma PathOfEntry(ms: seq<Member>, s: Scan, e: Entry)
    requires Says(ms, s) && e in s.entries
    ensures exists i | 0 <= i < |ms| ::
              Relative(ms[i]) != [] && EntryOf(ms[i], s.digests) == Some(e) && e.path == Relative(ms[i])
  {
    assert Entered(ms, s.digests, e);
  }

  lemma SaysOneMore(init: seq<Member>, m: Member, s: Scan, e: Entry)
    requires DistinctNames(init + [m]) && Says(init, s) && Relative(m) != [] && EntryOf(m, s.digests) == Some(e)
    ensures Says(init + [m],
      Scan(s.entries + [e], if m.typ == Regular then s.digests[Relative(m) := m.content] else s.digests))
  {
    var ms, q := init + [m], Relative(m);
    var d := if m.typ == Regular then s.digests[q := m.content] else s.digests;
    forall i | 0 <= i < |init| ensures ms[i] == init[i] && Relative(init[i]) != q { NamesApart(ms, |init|, i); }
    hide Relative, DistinctNames;
    assert forall c :: !Holds(init, q, c);
    SaysLookup(init, s, q);
    forall i | 0 <= i < |init| && Relative(init[i]) != [] ensures EntryOf(init[i], d) == EntryOf(init[i], s.digests) {
      LargerTable(init[i], s.digests, d);
    }
    LargerTable(m, s.digests, d);
    forall p, c ensures p in d && d[p] == c <==> Holds(ms, p, c) { HoldsOneMore(init, m, p, c); }
    EntriesOneMore(init, m, s, e, d);
  }

  lemma EntriesOneMore(init: seq<Member>, m: Member, s: Scan, e: Entry, d: map<Bytes, Bytes>)
    requires Says(init, s) && Relative(m) != [] && EntryOf(m, d) == Some(e) && e.path == Relative(m)
    requires forall i | 0 <= i < |init| && Relative(init[i]) != [] :: EntryOf(init[i], d) == EntryOf(init[i], s.digests)
    requires forall i | 0 <= i < |init| :: Relative(init[i]) != Relative(m)
    ensures forall x :: x in s.entries + [e] <==> Entered(init + [m], d, x)
    ensures forall i | 0 <= i < |init + [m]| && Relative((init + [m])[i]) != [] :: EntryOf((init + [m])[i], d).Some?
    ensures DistinctPaths(s.entries + [e])
  {
    hide Relative, EntryOf;
    forall x ensures x in s.entries + [e] <==> Entered(init + [m], d, x) {
      EnteredOneMore(init, m, d, x);
      assert Entered(init, d, x) <==> Entered(init, s.digests, x);
    }
    forall x | x in s.entries ensures x.path != e.path { PathOfEntry(init, s, x); }
  }

  lemma SaysSkipsRoot(init: seq<Member>, m: Member, s: Scan)
    requires Says(init, s) && Relative(m) == []
    ensures Says(init + [m], s)
  {
    forall p, c ensures Holds(init + [m], p, c) <==> Holds(init, p, c) { HoldsOneMore(init, m, p, c); }
    forall e ensures Entered(init + [m], s.digests, e) <==> Entered(init, s.digests, e) {
      EnteredOneMore(init, m, s.digests, e);
    }
  }

  lemma LinksOneMore(init: seq<Member>, last: Member)
    ensures LinksResolve(init + [last])
       <==> LinksResolve(init)
            && (last.typ == Hardlink && Relative(last) != [] ==> exists c :: Holds(init, last.linkname, c))
  {
    var ms := init + [last];
    forall i | 0 <= i < |init| ensures ms[i] == init[i] { }
    assert ms[|init|] == last;
    forall i | 0 <= i < |init| ensures TargetBefore(ms, i) <==> TargetBefore(init, i) {
      forall j | 0 <= j < i ensures ms[j] == init[j] { }
    }
    if TargetBefore(ms, |init|) {
      var j :| 0 <= j < |init| && ms[j].typ == Regular && Relative(ms[j]) != [] && Relative(ms[j]) == last.linkname;
      assert init[j] == ms[j] && Holds(init, last.linkname, init[j].content);
    }
    if c :| Holds(init, last.linkname, c) {
      var j :| 0 <= j < |init| && init[j].typ == Regular && Relative(init[j]) == last.linkname && init[j].content == c;
      assert ms[j] == init[j];
    }
  }

  /** The scan succeeds exactly when every hardlink resolves, and then it says what the members say. */
  lemma {:induction false} ScanSays(ms: seq<Member>)
    requires DistinctNames(ms)
    ensures match ScanAll(ms) case None => !LinksResolve(ms) case Some(s) => LinksResolve(ms) && Says(ms, s)
  {
    if ms != [] {
      var init, m := ms[..|ms| - 1], ms[|ms| - 1];
      assert ms == init + [m];
      ScanSays(init);
      LinksOneMore(init, m);
      hide Says, LinksResolve, Holds, DistinctNames, Relative;
      if ScanAll(init).Some? {
        var s := ScanAll(init).value;
        SaysLookup(init, s, m.linkname);
        if Relative(m) == [] {
          SaysSkipsRoot(init, m, s);
        } else if EntryOf(m, s.digests).Some? {
          SaysOneMore(init, m, s, EntryOf(m, s.digests).value);
        }
      }
    }
  }

  // ---------------------------------------------------------------- pre-images

  function PreImage(es: seq<Entry>): Bytes { EncodeAll(SortBy(es, PathKey)) }

  /** What `digest_rootfs_tar` hashes, if it does not raise. */
  function TarPreImage(ms: seq<Member>): Option<Bytes> {
    match ScanAll(ms)
    case None => None
    case Some(s) => Some(PreImage(s.entries))
  }

  /** The entry of one path of the tree; the walk respells link targets. */
  function TreeEntry(p: Bytes, t: Tree): Entry
    requires p in t
  {
    var n := t[p]; Entry(p, n.kind, n.mode, n.uid, n.gid, if n.kind == Symlink then PosixSpelling(n.data) else n.data)
  }

  function TreeEntries(listing: seq<Bytes>, t: Tree): seq<Entry>
    requires forall p | p in listing :: p in t
  {
    seq(|listing|, i requires 0 <= i < |listing| => TreeEntry(listing[i], t))
  }

  /** What `digest_rootfs` hashes, for one order in which the directory walk lists the paths. */
  function TreePreImage(listing: seq<Bytes>, t: Tree): Bytes
    requires forall p | p in listing :: p in t
  {
    PreImage(TreeEntries(listing, t))
  }

  predicate Lists(listing: seq<Bytes>, t: Tree) {
    && (forall p | p in listing :: p in t) && (forall p | p in t :: p in listing)
    && forall i, j | 0 <= i < j < |listing| :: listing[i] != listing[j]
  }

  predicate NoRepeats<T(==)>(s: seq<T>) { forall i, j | 0 <= i < j < |s| :: s[i] != s[j] }

  lemma {:induction false} CountOfOnce<T>(s: seq<T>, x: T)
    requires NoRepeats(s)
    ensures multiset(s)[x] == if x in s then 1 else 0
  {
    if s != [] {
      CountOfOnce(s[1..], x);
      assert s == [s[0]] + s[1..];
    }
  }

  lemma SameElementsSameMultiset<T>(a: seq<T>, b: seq<T>)
    requires NoRepeats(a) && NoRepeats(b) && forall x :: x in a <==> x in b
    ensures multiset(a) == multiset(b)
  {
    forall x ensures multiset(a)[x] == multiset(b)[x] {
      CountOfOnce(a, x);
      CountOfOnce(b, x);
    }
  }

  lemma SameElementsSamePreImage(a: seq<Entry>, b: seq<Entry>)
    requires DistinctPaths(a) && DistinctPaths(b) && forall e :: e in a <==> e in b
    ensures PreImage(a) == PreImage(b)
  {
    SameElementsSameMultiset(a, b);
    SortSorts(a, PathKey);
    SortSorts(b, PathKey);
    forall x, y | x in multiset(a) && y in multiset(a) && PathKey(x) == PathKey(y) ensures x == y {
      assert PathKey(x)[0] == PathKey(y)[0];
      NameTellsApart(x.path, y.path);
      assert x in a && y in a;
    }
    OrderedIsUnique(SortBy(a, PathKey), SortBy(b, PathKey), PathKey);
  }

  predicate AllWellFormed(es: seq<Entry>) { forall e | e in es :: WellFormed(e) }

  /** One pre-image means one set of entries. */
  lemma PreImageTellsEntries(a: seq<Entry>, b: seq<Entry>)
    requires AllWellFormed(a) && AllWellFormed(b) && PreImage(a) == PreImage(b)
    ensures forall e :: e in a <==> e in b
  {
    SortSorts(a, PathKey);
    SortSorts(b, PathKey);
    var x, y := SortBy(a, PathKey), SortBy(b, PathKey);
    forall e ensures (e in x <==> e in a) && (e in y <==> e in b) {
      assert e in multiset(x) <==> e in multiset(a);
      assert e in multiset(y) <==> e in multiset(b);
    }
    hide SortBy, WellFormed;
    PreImageDeterminesEntries(x, y);
  }

  /** The order in which the walk lists the paths is noise. */
  lemma ListingOrderIsNoise(a: seq<Bytes>, b: seq<Bytes>, t: Tree)
    requires Lists(a, t) && Lists(b, t)
    ensures TreePreImage(a, t) == TreePreImage(b, t)
  {
    forall e ensures e in TreeEntries(a, t) <==> e in TreeEntries(b, t) {
      TreeEntriesAre(a, t, e);
      TreeEntriesAre(b, t, e);
    }
    SameElementsSamePreImage(TreeEntries(a, t), TreeEntries(b, t));
  }

  lemma TreeEntriesAre(listing: seq<Bytes>, t: Tree, e: Entry)
    requires Lists(listing, t)
    ensures e in TreeEntries(listing, t) <==> e.path in t && e == TreeEntry(e.path, t)
  {
    if e.path in t && e == TreeEntry(e.path, t) {
      var i :| 0 <= i < |listing| && listing[i] == e.path;
      assert TreeEntries(listing, t)[i] == e;
    }
  }

  // ---------------------------------------------------------------- archive and tree

  /** The member says what the tree holds where it lands; a hardlink shares its target's node. */
  predicate NodeMatches(m: Member, t: Tree) {
    && Location(m.name) in t
    && var n := t[Location(m.name)];
       && n.mode == m.mode % 4096 && n.uid == m.uid && n.gid == m.gid
       && match m.typ
          case Hardlink => Location(m.linkname) in t && t[Location(m.linkname)] == n
          case Symbolic => n.kind == Symlink && n.data == m.linkname
          case Regular => n.kind == File && n.data == m.content
          case Dir => n.kind == Directory && n.data == []
          case Special => n.kind == Other && n.data == []
  }

  ghost predicate Describes(ms: seq<Member>, t: Tree) {
    && DistinctNames(ms) && CleanTree(t)
    && (forall i | 0 <= i < |ms| && Location(ms[i].name) != [] :: NodeMatches(ms[i], t))
    && (forall p | p in t :: exists i | 0 <= i < |ms| :: Location(ms[i].name) == p)
  }

  /** The cleaned name is the path the walk lists, and a link target is spelled as `pathlib` would. */
  predicate Spelled(m: Member) {
    && Relative(m) == Location(m.name)
    && (m.typ == Symbolic && Relative(m) != [] ==> PosixSpelling(m.linkname) == m.linkname)
  }

  predicate AllSpelled(ms: seq<Member>) { forall i | 0 <= i < |ms| :: Spelled(ms[i]) }

  /** What tar and file systems hold: no NUL in names and targets, and 32-byte content digests. */
  predicate Storable(ms: seq<Member>) {
    forall i | 0 <= i < |ms| ::
      0 !in ms[i].name && 0 !in ms[i].linkname && (ms[i].typ == Regular ==> |ms[i].content| == 32)
  }

  predicate StorableTree(t: Tree) { forall p | p in t :: WellFormed(TreeEntry(p, t)) }

  lemma ScanIsWellFormed(ms: seq<Member>, s: Scan)
    requires Says(ms, s) && Storable(ms)
    ensures AllWellFormed(s.entries)
  {
    forall e | e in s.entries ensures WellFormed(e) {
      assert Entered(ms, s.digests, e);
      var i :| 0 <= i < |ms| && Relative(ms[i]) != [] && EntryOf(ms[i], s.digests) == Some(e);
      CleanHoldsNoMore(ms[i].name, 0);
      if ms[i].typ == Hardlink { assert Holds(ms, ms[i].linkname, s.digests[ms[i].linkname]); }
    }
  }

  /** The member's entry is the tree's, for a member spelled as the walk spells it. */
  lemma SpelledEntry(ms: seq<Member>, t: Tree, s: Scan, i: nat)
    requires Describes(ms, t) && Says(ms, s) && AllSpelled(ms) && i < |ms| && Relative(ms[i]) != []
    ensures Relative(ms[i]) in t && EntryOf(ms[i], s.digests) == Some(TreeEntry(Relative(ms[i]), t))
  {
    var m := ms[i];
    assert Spelled(m) && NodeMatches(m, t);
    if m.typ == Hardlink {
      assert EntryOf(m, s.digests).Some?;
      var c := s.digests[m.linkname];
      assert Holds(ms, m.linkname, c);
      var k :| 0 <= k < |ms| && ms[k].typ == Regular && Relative(ms[k]) == m.linkname && ms[k].content == c;
      assert Spelled(ms[k]) && NodeMatches(ms[k], t);
      assert Location(m.linkname) == m.linkname;
    }
  }

  lemma SpelledAgrees(ms: seq<Member>, t: Tree, listing: seq<Bytes>, s: Scan)
    requires Describes(ms, t) && Lists(listing, t) && Says(ms, s) && AllSpelled(ms)
    ensures PreImage(s.entries) == TreePreImage(listing, t)
  {
    var b := TreeEntries(listing, t);
    forall e ensures e in s.entries <==> e in b {
      TreeEntriesAre(listing, t, e);
      if e in s.entries {
        PathOfEntry(ms, s, e);
        var i :| 0 <= i < |ms| && Relative(ms[i]) != [] && EntryOf(ms[i], s.digests) == Some(e);
        SpelledEntry(ms, t, s, i);
      }
      if e in b {
        var i :| 0 <= i < |ms| && Location(ms[i].name) == e.path;
        assert Spelled(ms[i]);
        SpelledEntry(ms, t, s, i);
        assert Entered(ms, s.digests, e);
      }
    }
    SameElementsSamePreImage(s.entries, b);
  }

  /** A member the walk would spell otherwise leaves an entry the tree does not have. */
  lemma MisspelledShows(ms: seq<Member>, t: Tree, s: Scan, i: nat)
    requires Describes(ms, t) && Says(ms, s) && i < |ms| && !Spelled(ms[i]) && Relative(ms[i]) != []
    ensures var e := EntryOf(ms[i], s.digests);
            e.Some? && e.value in s.entries && !(e.value.path in t && e.value == TreeEntry(e.value.path, t))
  {
    var m := ms[i];
    var e := EntryOf(m, s.digests).value;
    assert Entered(ms, s.digests, e);
    CleanKeepsLocation(m.name);
    if Relative(m) == Location(m.name) { assert NodeMatches(m, t); }
  }

  lemma SkippedIsRoot(m: Member)
    requires Relative(m) == []
    ensures Location(m.name) == []
  {
    CleanKeepsLocation(m.name);
    assert CutAt([]) == Cut([], []);
  }

  /** Tree and archive agree: for every order of members that describe the tree, the tar digest's pre-image is the
      tree digest's exactly when every hardlink resolves and every member is spelled as the walk spells it; the
      tar digest raises exactly when some hardlink does not resolve. */
  lemma TreeAndTarAgree(ms: seq<Member>, t: Tree, listing: seq<Bytes>)
    requires Describes(ms, t) && Lists(listing, t) && Storable(ms) && StorableTree(t)
    ensures TarPreImage(ms) == Some(TreePreImage(listing, t)) <==> LinksResolve(ms) && AllSpelled(ms)
    ensures TarPreImage(ms) == None <==> !LinksResolve(ms)
  {
    ScanSays(ms);
    hide Says, LinksResolve, PreImage, Spelled, Storable, StorableTree;
    if ScanAll(ms).Some? {
      var s := ScanAll(ms).value;
      if AllSpelled(ms) {
        SpelledAgrees(ms, t, listing, s);
      } else if PreImage(s.entries) == TreePreImage(listing, t) {
        MisspelledDiffers(ms, t, listing, s);
      }
    }
  }

  lemma MisspelledDiffers(ms: seq<Member>, t: Tree, listing: seq<Bytes>, s: Scan)
    requires Describes(ms, t) && Lists(listing, t) && Storable(ms) && StorableTree(t)
    requires Says(ms, s) && !AllSpelled(ms)
    ensures PreImage(s.entries) != TreePreImage(listing, t)
  {
    var b := TreeEntries(listing, t);
    ScanIsWellFormed(ms, s);
    forall e | e in b ensures WellFormed(e) { TreeEntriesAre(listing, t, e); }
    var i :| 0 <= i < |ms| && !Spelled(ms[i]);
    if Relative(ms[i]) == [] { SkippedIsRoot(ms[i]); }
    MisspelledShows(ms, t, s, i);
    var e := EntryOf(ms[i], s.digests).value;
    TreeEntriesAre(listing, t, e);
    if PreImage(s.entries) == PreImage(b) { PreImageTellsEntries(s.entries, b); }
  }

  // ---------------------------------------------------------------- archives that fail

  function Plain(name: Bytes, typ: MemberType, linkname: Bytes, content: Bytes): Member {
    Member(name, typ, 420, 0, 0, linkname, content)
  }

  lemma OneSymlink(link: Bytes, target: Bytes, ms: seq<Member>, t: Tree)
    requires link != [] && Location(link) == link && CleanPath(link) == link && 0 !in link && 0 !in target
      && 0 !in PosixSpelling(target)
    requires ms == [Plain(link, Symbolic, target, [])] && t == map[link := Node(Symlink, 420, 0, 0, target)]
    ensures Describes(ms, t) && Storable(ms) && StorableTree(t) && LinksResolve(ms) && Lists([link], t)
    ensures AllSpelled(ms) <==> PosixSpelling(target) == target
  {
    hide Location, CleanPath, PosixSpelling;
    assert ms[0] == Plain(link, Symbolic, target, []);
    assert Spelled(ms[0]) <==> PosixSpelling(target) == target;
    assert NodeMatches(ms[0], t);
  }

  lemma OneSymlinkDiffers(link: Bytes, target: Bytes, ms: seq<Member>, t: Tree)
    requires link != [] && Location(link) == link && CleanPath(link) == link && 0 !in link && 0 !in target
      && 0 !in PosixSpelling(target) && PosixSpelling(target) != target
    requires ms == [Plain(link, Symbolic, target, [])] && t == map[link := Node(Symlink, 420, 0, 0, target)]
    ensures Describes(ms, t) && LinksResolve(ms) && Lists([link], t)
    ensures TarPreImage(ms) != Some(TreePreImage([link], t))
  {
    OneSymlink(link, target, ms, t);
    hide Location, CleanPath, PosixSpelling, TarPreImage, TreePreImage, Describes, Storable, StorableTree, LinksResolve,
      AllSpelled, Lists;
    assert forall p | p in [link] :: p in t;
    TreeAndTarAgree(ms, t, [link]);
  }

  lemma LinkToHere(link: Bytes, target: Bytes)
    requires link == [108] && target == [DOT, SLASH, 116]
    ensures Location(link) == CleanPath(link) == link && 0 !in link && 0 !in target
    ensures 0 !in PosixSpelling(target) && PosixSpelling(target) != target
  {
    ShortPaths(108);
    ShortPaths(116);
    assert |target| == 3 && PosixSpelling(target) == [116];
  }

  /** One symlink "l" to "./t": the tar digest takes the target as it stands, the walk as "t". */
  lemma RespelledTargetDiffers()
    ensures var ms := [Plain([108], Symbolic, [DOT, SLASH, 116], [])];
            var t := map[[108] := Node(Symlink, 420, 0, 0, [DOT, SLASH, 116])];
            && Describes(ms, t) && LinksResolve(ms) && Lists([[108]], t)
            && TarPreImage(ms) != Some(TreePreImage([[108]], t))
  {
    hide Location, CleanPath, PosixSpelling, TarPreImage, TreePreImage, Describes, LinksResolve, Lists;
    var link: Bytes, target: Bytes := [108], [DOT, SLASH, 116];
    LinkToHere(link, target);
    OneSymlinkDiffers(link, target, [Plain(link, Symbolic, target, [])],
      map[link := Node(Symlink, 420, 0, 0, target)]);
  }

  lemma FileAndHardlink(a: Bytes, b: Bytes, x: Bytes, y: Bytes, link: Bytes, ms: seq<Member>, t: Tree)
    requires x != [] && y != [] && x != y && Location(x) == x && Location(y) == y
    requires Location(a) == CleanPath(a) == x && Location(b) == CleanPath(b) == y && Location(link) == x
    requires |ms| == 2 && ms[0].name == a && ms[0].typ == Regular && ms[1] == Plain(b, Hardlink, link, [])
    requires ms[0] == Plain(a, Regular, [], ms[0].content)
    requires t == map[x := Node(File, 420, 0, 0, ms[0].content), y := Node(File, 420, 0, 0, ms[0].content)]
    ensures Describes(ms, t) && AllSpelled(ms) && (LinksResolve(ms) <==> link == x)
  {
    hide Location, CleanPath, PosixSpelling;
    assert Relative(ms[0]) == x && Relative(ms[1]) == y;
    assert NodeMatches(ms[0], t) && NodeMatches(ms[1], t);
    assert TargetBefore(ms, 1) <==> link == x by {
      if TargetBefore(ms, 1) {
        var j :| 0 <= j < 1 && ms[j].typ == Regular && Relative(ms[j]) != [] && Relative(ms[j]) == ms[1].linkname;
      }
    }
  }

  /** A file "./a" and a hardlink "./b" to "./a": the archive describes its tree, and its digest raises. */
  lemma RawLinkNameRaises(content: Bytes)
    ensures var ms := [Plain([DOT, SLASH, 97], Regular, [], content),
      Plain([DOT, SLASH, 98], Hardlink, [DOT, SLASH, 97], [])];
            var n := Node(File, 420, 0, 0, content);
            Describes(ms, map[[97] := n, [98] := n]) && AllSpelled(ms) && TarPreImage(ms) == None
  {
    var a: Bytes, b: Bytes, x: Bytes, y: Bytes := [DOT, SLASH, 97], [DOT, SLASH, 98], [97], [98];
    var ms := [Plain(a, Regular, [], content), Plain(b, Hardlink, a, [])];
    var n := Node(File, 420, 0, 0, content);
    ShortPaths(97);
    ShortPaths(98);
    assert x[0] != y[0] && |a| == 3;
    hide Location, CleanPath, ScanAll;
    FileAndHardlink(a, b, x, y, a, ms, map[x := n, y := n]);
    hide Describes, AllSpelled;
    assert DistinctNames(ms) by { DescribedAreDistinct(ms, map[x := n, y := n]); }
    ScanSays(ms);
  }

  lemma DescribedAreDistinct(ms: seq<Member>, t: Tree)
    requires Describes(ms, t)
    ensures DistinctNames(ms)
  {
  }
}
