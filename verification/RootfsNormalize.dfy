/** The normalized archive, and the digest functions as they feed the hash. */
module RootfsNormalize {
  import opened Options
  import opened PosixPath
  import opened RootfsDigest
  import opened RootfsTar
  import opened Sorting

  /** Members other than the root, renamed to their relative path. */
  function Renamed(ms: seq<Member>): seq<Member> {
    if ms == [] then []
    else
      var m := ms[|ms| - 1];
      Renamed(ms[..|ms| - 1]) + if Relative(m) == [] then [] else [AsRelative(m)]
  }

  function AsRelative(m: Member): Member { m.(name := Relative(m)) }

  function RawNameKey(m: Member): seq<string> { [Name(m.name)] }

  /** `normalize_rootfs_tar`, as the members it writes. */
  function Normalized(ms: seq<Member>): seq<Member> { SortBy(Renamed(ms), RawNameKey) }

  /** `p` sorts strictly before `q`. */
  predicate SortsBefore(p: Bytes, q: Bytes) { p != q && StringLe(Name(p), Name(q)) }

  /** A hardlink of the normalized archive finds its target: a regular member that sorts before the link. */
  predicate LinkSorts(ms: seq<Member>, m: Member) {
    exists k | 0 <= k < |ms| && ms[k].typ == Regular && Relative(ms[k]) != [] ::
      && Relative(AsRelative(ms[k])) != [] && Relative(AsRelative(ms[k])) == m.linkname
      && SortsBefore(Relative(ms[k]), Relative(m))
  }

  predicate LinksSortAfterTargets(ms: seq<Member>) {
    forall i | 0 <= i < |ms| && ms[i].typ == Hardlink && Relative(ms[i]) != [] && Relative(AsRelative(ms[i])) != [] ::
      LinkSorts(ms, ms[i])
  }

  /** The members other than the root, each under its relative path and nothing else. */
  ghost predicate RenamedFrom(ms: seq<Member>, r: seq<Member>) {
    && (forall m | m in r :: exists i | 0 <= i < |ms| :: Relative(ms[i]) != [] && m == AsRelative(ms[i]))
    && (forall i | 0 <= i < |ms| && Relative(ms[i]) != [] :: AsRelative(ms[i]) in r)
    && (forall i, j | 0 <= i < j < |r| :: r[i].name != r[j].name)
  }

  lemma {:induction false} RenamedIsFiltered(ms: seq<Member>)
    requires DistinctNames(ms)
    ensures RenamedFrom(ms, Renamed(ms))
  {
    if ms != [] {
      var init, m := ms[..|ms| - 1], ms[|ms| - 1];
      assert ms == init + [m];
      assert DistinctNames(init);
      RenamedIsFiltered(init);
      RenamedOneMore(init, m, Renamed(init));
    }
  }

  lemma RenamedOneMore(init: seq<Member>, m: Member, r: seq<Member>)
    requires DistinctNames(init + [m]) && RenamedFrom(init, r)
    ensures RenamedFrom(init + [m], r + if Relative(m) == [] then [] else [AsRelative(m)])
  {
    var ms := init + [m];
    forall x | x in r ensures exists i | 0 <= i < |ms| :: Relative(ms[i]) != [] && x == AsRelative(ms[i]) {
      var i :| 0 <= i < |init| && Relative(init[i]) != [] && x == AsRelative(init[i]);
      assert ms[i] == init[i];
    }
    assert ms[|init|] == m;
    forall i | 0 <= i < |init| ensures ms[i] == init[i] { }
    if Relative(m) != [] {
      forall x | x in r ensures x.name != Relative(m) {
        var i :| 0 <= i < |init| && Relative(init[i]) != [] && x == AsRelative(init[i]);
        NamesApart(ms, |init|, i);
      }
    }
  }

  lemma RepeatCounts<T>(s: seq<T>, i: nat, j: nat)
    requires i < j < |s| && s[i] == s[j]
    ensures multiset(s)[s[i]] >= 2
  {
    assert s == s[..i] + [s[i]] + s[i + 1..j] + [s[j]] + s[j + 1..];
  }

  lemma PermutationKeepsApart(a: seq<Member>, b: seq<Member>)
    requires multiset(a) == multiset(b) && forall i, j | 0 <= i < j < |a| :: a[i].name != a[j].name
    ensures forall i, j | 0 <= i < j < |b| :: b[i].name != b[j].name
  {
    forall i, j | 0 <= i < j < |b| ensures b[i].name != b[j].name {
      if b[i].name == b[j].name {
        assert b[i] in multiset(a) && b[j] in multiset(a);
        var p :| 0 <= p < |a| && a[p] == b[i];
        var q :| 0 <= q < |a| && a[q] == b[j];
        assert b[i] == b[j];
        RepeatCounts(b, i, j);
        CountOfOnce(a, b[i]);
      }
    }
  }

  lemma NormalizedIsRenamed(ms: seq<Member>)
    requires DistinctNames(ms)
    ensures RenamedFrom(ms, Normalized(ms)) && Ordered(Normalized(ms), RawNameKey)
  {
    RenamedIsFiltered(ms);
    var r, n := Renamed(ms), Normalized(ms);
    SortSorts(r, RawNameKey);
    PermutationKeepsApart(r, n);
    forall m ensures m in n <==> m in r { assert m in multiset(n) <==> m in multiset(r); }
  }

  lemma Source(ms: seq<Member>, n: seq<Member>, j: nat) returns (k: nat)
    requires RenamedFrom(ms, n) && j < |n|
    ensures k < |ms| && Relative(ms[k]) != [] && n[j] == AsRelative(ms[k]) && n[j].name == Relative(ms[k])
    ensures Location(n[j].name) == Location(ms[k].name)
  {
    assert n[j] in n;
    k :| 0 <= k < |ms| && Relative(ms[k]) != [] && n[j] == AsRelative(ms[k]);
    CleanKeepsLocation(ms[k].name);
  }

  lemma Image(ms: seq<Member>, n: seq<Member>, k: nat) returns (j: nat)
    requires RenamedFrom(ms, n) && k < |ms| && Relative(ms[k]) != []
    ensures j < |n| && n[j] == AsRelative(ms[k]) && n[j].name == Relative(ms[k])
    ensures Location(n[j].name) == Location(ms[k].name)
  {
    j :| 0 <= j < |n| && n[j] == AsRelative(ms[k]);
    CleanKeepsLocation(ms[k].name);
  }

  lemma RenamedIsDistinct(ms: seq<Member>, n: seq<Member>)
    requires DistinctNames(ms) && RenamedFrom(ms, n)
    ensures DistinctNames(n)
  {
    hide Location;
    forall i, j | 0 <= i < j < |n| && Location(n[i].name) == Location(n[j].name) ensures false {
      var a := Source(ms, n, i);
      var b := Source(ms, n, j);
      if a != b { NamesApart(ms, a, b); }
    }
  }

  lemma RenamedIsStorable(ms: seq<Member>, n: seq<Member>)
    requires Storable(ms) && RenamedFrom(ms, n)
    ensures Storable(n)
  {
    forall j | 0 <= j < |n|
      ensures 0 !in n[j].name && 0 !in n[j].linkname && (n[j].typ == Regular ==> |n[j].content| == 32)
    {
      var k := Source(ms, n, j);
      CleanHoldsNoMore(ms[k].name, 0);
    }
  }

  lemma MovedMatches(m: Member, x: Member, t: Tree)
    requires NodeMatches(m, t) && x == m.(name := x.name) && Location(x.name) == Location(m.name)
    ensures NodeMatches(x, t)
  {
    hide Location;
  }

  lemma RenamedMatches(ms: seq<Member>, t: Tree, n: seq<Member>, j: nat)
    requires Describes(ms, t) && RenamedFrom(ms, n) && j < |n| && Location(n[j].name) != []
    ensures NodeMatches(n[j], t)
  {
    hide RenamedFrom, Relative;
    var k := Source(ms, n, j);
    assert NodeMatches(ms[k], t);
    hide Location, Describes, NodeMatches;
    MovedMatches(ms[k], n[j], t);
  }

  lemma RenamedLands(ms: seq<Member>, t: Tree, n: seq<Member>, p: Bytes) returns (j: nat)
    requires Describes(ms, t) && RenamedFrom(ms, n) && p in t
    ensures j < |n| && Location(n[j].name) == p
  {
    assert p != [];
    var k :| 0 <= k < |ms| && Location(ms[k].name) == p;
    hide RenamedFrom, Location, Describes;
    if Relative(ms[k]) == [] { SkippedIsRoot(ms[k]); }
    j := Image(ms, n, k);
  }

  /** The normalized archive still describes the tree. */
  lemma NormalizedDescribes(ms: seq<Member>, t: Tree)
    requires Describes(ms, t)
    ensures Describes(Normalized(ms), t)
  {
    var n := Normalized(ms);
    NormalizedIsRenamed(ms);
    RenamedIsDistinct(ms, n);
    assert CleanTree(t);
    forall j | 0 <= j < |n| && Location(n[j].name) != [] ensures NodeMatches(n[j], t) { RenamedMatches(ms, t, n, j); }
    forall p | p in t ensures exists j | 0 <= j < |n| :: Location(n[j].name) == p {
      var j := RenamedLands(ms, t, n, p);
    }
    hide Normalized, RenamedFrom, Location, NodeMatches, CleanTree, DistinctNames;
  }

  lemma OneNameOrder(a: string, b: string)
    ensures TupleLe([a], [b]) <==> StringLe(a, b)
  {
    assert [a][1..] == [] && [b][1..] == [];
    LexTotal(a, a, (x: char, y: char) => x <= y);
    assert StringLe(a, a);
    if a == b { assert TupleLe([a], [b]); }
    if a != b { assert TupleLe([a], [b]) <==> StringLe(a, b); }
  }

  lemma SortedPair(n: seq<Member>, i: nat, j: nat)
    requires Ordered(n, RawNameKey) && i < |n| && j < |n| && n[i].name != n[j].name
    ensures j < i <==> SortsBefore(n[j].name, n[i].name)
  {
    hide StringLe, TupleLe;
    var p, q := n[j].name, n[i].name;
    OneNameOrder(Name(p), Name(q));
    OneNameOrder(Name(q), Name(p));
    if j < i {
      assert TupleLe(RawNameKey(n[j]), RawNameKey(n[i]));
    } else {
      assert TupleLe(RawNameKey(n[i]), RawNameKey(n[j]));
      if StringLe(Name(p), Name(q)) {
        TupleAntisymmetric([Name(p)], [Name(q)]);
        assert [Name(p)][0] == [Name(q)][0];
        NameTellsApart(p, q);
      }
    }
  }

  predicate SortedTarget(n: seq<Member>, m: Member) {
    exists j | 0 <= j < |n| ::
      && n[j].typ == Regular && Relative(n[j]) != [] && Relative(n[j]) == m.linkname && SortsBefore(n[j].name, m.name)
  }

  /** In a sorted archive a hardlink finds its target exactly when there is one and it sorts first. */
  lemma SortedLink(n: seq<Member>, i: nat)
    requires Ordered(n, RawNameKey) && (forall i, j | 0 <= i < j < |n| :: n[i].name != n[j].name)
    requires i < |n| && n[i].typ == Hardlink
    ensures TargetBefore(n, i) <==> SortedTarget(n, n[i])
  {
    hide Ordered, SortsBefore, Relative;
    forall j | 0 <= j < |n| && j != i ensures j < i <==> SortsBefore(n[j].name, n[i].name) { SortedPair(n, i, j); }
  }

  lemma SortedTargetIsLinkSorts(ms: seq<Member>, n: seq<Member>, m: Member)
    requires RenamedFrom(ms, n)
    ensures SortedTarget(n, AsRelative(m)) <==> LinkSorts(ms, m)
  {
    hide RenamedFrom, SortsBefore, Location;
    if SortedTarget(n, AsRelative(m)) {
      var j :| 0 <= j < |n| && n[j].typ == Regular && Relative(n[j]) != [] && Relative(n[j]) == m.linkname
               && SortsBefore(n[j].name, Relative(m));
      var k := Source(ms, n, j);
    }
    if LinkSorts(ms, m) {
      var k :| 0 <= k < |ms| && ms[k].typ == Regular && Relative(ms[k]) != [] && Relative(AsRelative(ms[k])) != []
               && Relative(AsRelative(ms[k])) == m.linkname && SortsBefore(Relative(ms[k]), Relative(m));
      var j := Image(ms, n, k);
    }
  }

  lemma SortedLinks(ms: seq<Member>, n: seq<Member>)
    requires RenamedFrom(ms, n) && Ordered(n, RawNameKey)
    ensures LinksResolve(n) <==> LinksSortAfterTargets(ms)
  {
    assert forall i, j | 0 <= i < j < |n| :: n[i].name != n[j].name;
    hide Ordered, TargetBefore, LinkSorts, RenamedFrom, SortedTarget, Relative;
    forall i | 0 <= i < |n| && n[i].typ == Hardlink && Relative(n[i]) != [] && LinksSortAfterTargets(ms)
      ensures TargetBefore(n, i)
    {
      var k := Source(ms, n, i);
      SortedLink(n, i);
      SortedTargetIsLinkSorts(ms, n, ms[k]);
      assert LinkSorts(ms, ms[k]);
    }
    forall k | 0 <= k < |ms| && ms[k].typ == Hardlink && Relative(ms[k]) != [] && Relative(AsRelative(ms[k])) != []
               && LinksResolve(n)
      ensures LinkSorts(ms, ms[k])
    {
      var i := Image(ms, n, k);
      SortedLink(n, i);
      SortedTargetIsLinkSorts(ms, n, ms[k]);
      assert TargetBefore(n, i);
    }
  }

  /** Every member is spelled as the walk spells it once it has its relative path for a name. */
  predicate RenamedSpelled(ms: seq<Member>) {
    forall i | 0 <= i < |ms| && Relative(ms[i]) != [] :: Spelled(AsRelative(ms[i]))
  }

  lemma SpelledAlike(ms: seq<Member>, n: seq<Member>)
    requires RenamedFrom(ms, n)
    ensures AllSpelled(n) <==> RenamedSpelled(ms)
  {
    hide Spelled, Relative, RenamedFrom;
    forall k | 0 <= k < |ms| && Relative(ms[k]) != [] && AllSpelled(n) ensures Spelled(AsRelative(ms[k])) {
      var j := Image(ms, n, k);
    }
    forall j | 0 <= j < |n| && RenamedSpelled(ms) ensures Spelled(n[j]) {
      var k := Source(ms, n, j);
    }
  }

  /** The normalized archive of a tree has the tree's pre-image exactly when every hardlink's target is a regular
      member that sorts before it and every renamed member is spelled as the walk spells it; its digest raises
      exactly when a hardlink does not sort so.  The original order plays no part. */
  lemma NormalizedPreImage(ms: seq<Member>, t: Tree, listing: seq<Bytes>)
    requires Describes(ms, t) && Lists(listing, t) && Storable(ms) && StorableTree(t)
    ensures TarPreImage(Normalized(ms)) == Some(TreePreImage(listing, t))
       <==> LinksSortAfterTargets(ms) && RenamedSpelled(ms)
    ensures TarPreImage(Normalized(ms)) == None <==> !LinksSortAfterTargets(ms)
  {
    DescribedAreDistinct(ms, t);
    hide Describes, Storable, StorableTree, LinksResolve, LinksSortAfterTargets, RenamedFrom, Ordered, TarPreImage,
      Normalized, AllSpelled, RenamedSpelled, DistinctNames, TreePreImage;
    NormalizedDescribes(ms, t);
    NormalizedIsRenamed(ms);
    RenamedIsStorable(ms, Normalized(ms));
    SortedLinks(ms, Normalized(ms));
    SpelledAlike(ms, Normalized(ms));
    TreeAndTarAgree(Normalized(ms), t, listing);
  }

  /** Cleaning the relative paths again changes nothing. */
  predicate Settled(ms: seq<Member>) {
    forall i | 0 <= i < |ms| && Relative(ms[i]) != [] :: Relative(AsRelative(ms[i])) == Relative(ms[i])
  }

  lemma SettledHolds(ms: seq<Member>, n: seq<Member>, p: Bytes, c: Bytes)
    requires RenamedFrom(ms, n) && Settled(ms)
    ensures Holds(n, p, c) <==> Holds(ms, p, c)
  {
    hide RenamedFrom, Location;
    if Holds(n, p, c) {
      var j :| 0 <= j < |n| && n[j].typ == Regular && Relative(n[j]) == p && n[j].content == c;
      var k := Source(ms, n, j);
    }
    if Holds(ms, p, c) {
      var k :| 0 <= k < |ms| && ms[k].typ == Regular && Relative(ms[k]) == p && ms[k].content == c;
      var j := Image(ms, n, k);
    }
  }

  lemma SettledEntered(ms: seq<Member>, n: seq<Member>, d: map<Bytes, Bytes>, e: Entry)
    requires RenamedFrom(ms, n) && Settled(ms)
    ensures Entered(n, d, e) <==> Entered(ms, d, e)
  {
    hide RenamedFrom, Location;
    if Entered(n, d, e) {
      var j :| 0 <= j < |n| && Relative(n[j]) != [] && EntryOf(n[j], d) == Some(e);
      var k := Source(ms, n, j);
    }
    if Entered(ms, d, e) {
      var k :| 0 <= k < |ms| && Relative(ms[k]) != [] && EntryOf(ms[k], d) == Some(e);
      var j := Image(ms, n, k);
    }
  }

  lemma SettledDigests(ms: seq<Member>, n: seq<Member>, s: Scan, z: Scan)
    requires RenamedFrom(ms, n) && Settled(ms) && Says(ms, s) && Says(n, z)
    ensures s.digests == z.digests
  {
    hide Entered, EntryOf, Holds, RenamedFrom, Settled;
    forall p | p in s.digests ensures p in z.digests && z.digests[p] == s.digests[p] {
      assert Holds(ms, p, s.digests[p]);
      SettledHolds(ms, n, p, s.digests[p]);
    }
    forall p | p in z.digests ensures p in s.digests {
      assert Holds(n, p, z.digests[p]);
      SettledHolds(ms, n, p, z.digests[p]);
    }
  }

  lemma SettledSamePreImage(ms: seq<Member>, n: seq<Member>, s: Scan, z: Scan)
    requires RenamedFrom(ms, n) && Settled(ms) && Says(ms, s) && Says(n, z)
    ensures PreImage(s.entries) == PreImage(z.entries)
  {
    hide Entered, EntryOf, Holds, RenamedFrom, Settled;
    SettledDigests(ms, n, s, z);
    forall e ensures e in s.entries <==> e in z.entries { SettledEntered(ms, n, s.digests, e); }
    SameElementsSamePreImage(s.entries, z.entries);
  }

  lemma SamePathSameMember(ms: seq<Member>, n: seq<Member>, j: nat, k: nat)
    requires RenamedFrom(ms, n) && DistinctNames(ms) && j < |n| && k < |ms| && Relative(ms[k]) != []
    requires Relative(n[j]) == Relative(ms[k])
    ensures Relative(AsRelative(ms[k])) == Relative(ms[k])
  {
    hide RenamedFrom, Location;
    var q := Source(ms, n, j);
    CleanKeepsLocation(n[j].name);
    CleanKeepsLocation(ms[k].name);
    if q != k { NamesApart(ms, k, q); }
  }

  lemma UnsettledDiffers(ms: seq<Member>, n: seq<Member>, s: Scan, z: Scan)
    requires RenamedFrom(ms, n) && DistinctNames(ms) && Storable(ms) && Says(ms, s) && Says(n, z)
    requires PreImage(s.entries) == PreImage(z.entries)
    ensures Settled(ms)
  {
    RenamedIsStorable(ms, n);
    ScanIsWellFormed(ms, s);
    ScanIsWellFormed(n, z);
    PreImageTellsEntries(s.entries, z.entries);
    hide Location, PreImage, RenamedFrom, DistinctNames, Storable, AllWellFormed;
    forall k | 0 <= k < |ms| && Relative(ms[k]) != [] ensures Relative(AsRelative(ms[k])) == Relative(ms[k]) {
      var e := EntryOf(ms[k], s.digests).value;
      assert Entered(ms, s.digests, e) && e.path == Relative(ms[k]);
      PathOfEntry(n, z, e);
      var j :| 0 <= j < |n| && Relative(n[j]) != [] && EntryOf(n[j], z.digests) == Some(e) && e.path == Relative(n[j]);
      SamePathSameMember(ms, n, j, k);
    }
  }

  /** Normalizing an archive that has a digest keeps its pre-image exactly when its hardlinks sort after their
      targets and its names are settled; no tree is needed to say so. */
  lemma NormalizingKeepsPreImageExactlyWhen(ms: seq<Member>)
    requires DistinctNames(ms) && Storable(ms) && LinksResolve(ms)
    ensures TarPreImage(Normalized(ms)) == TarPreImage(ms) <==> LinksSortAfterTargets(ms) && Settled(ms)
  {
    var n := Normalized(ms);
    NormalizedIsRenamed(ms);
    RenamedIsDistinct(ms, n);
    SortedLinks(ms, n);
    ScanSays(ms);
    ScanSays(n);
    hide DistinctNames, Storable, LinksResolve, LinksSortAfterTargets, Settled, RenamedFrom, Says, PreImage, Normalized;
    if LinksSortAfterTargets(ms) {
      var s, z := ScanAll(ms).value, ScanAll(n).value;
      if Settled(ms) { SettledSamePreImage(ms, n, s, z); }
      if PreImage(s.entries) == PreImage(z.entries) { UnsettledDiffers(ms, n, s, z); }
    }
  }

  /** A file and a hardlink to it whose path sorts first. */
  lemma LinkFirstRaises(x: Bytes, y: Bytes, ms: seq<Member>, t: Tree)
    requires |ms| == 2 && ms[1] == Plain(y, Hardlink, x, []) && Relative(ms[0]) == x != [] && !SortsBefore(x, y)
    requires Describes(ms, t) && Relative(ms[1]) == y != [] && LinksResolve(ms)
    ensures DistinctNames(ms) && TarPreImage(ms) != None && TarPreImage(Normalized(ms)) == None
  {
    hide Location, CleanPath, ScanAll, Normalized, Ordered, SortsBefore;
    DescribedAreDistinct(ms, t);
    ScanSays(ms);
    assert AsRelative(ms[1]) == ms[1];
    assert !LinkSorts(ms, ms[1]);
    NormalizedIsRenamed(ms);
    RenamedIsDistinct(ms, Normalized(ms));
    SortedLinks(ms, Normalized(ms));
    ScanSays(Normalized(ms));
  }

  lemma LettersSort()
    ensures !SortsBefore([98], [97])
  {
    assert Name([98])[0] == 'b' && Name([97])[0] == 'a';
  }

  /** A file "b" and a hardlink "a" to it: the archive has a digest, the normalized one raises. */
  lemma LinkSortingFirstRaises(content: Bytes)
    ensures var ms := [Plain([98], Regular, [], content), Plain([97], Hardlink, [98], [])];
            DistinctNames(ms) && TarPreImage(ms) != None && TarPreImage(Normalized(ms)) == None
  {
    var x: Bytes, y: Bytes := [98], [97];
    var ms := [Plain(x, Regular, [], content), Plain(y, Hardlink, x, [])];
    var n := Node(File, 420, 0, 0, content);
    ShortPaths(97);
    ShortPaths(98);
    LettersSort();
    assert x[0] != y[0];
    hide Location, CleanPath, ScanAll, Normalized, SortsBefore;
    FileAndHardlink(x, y, x, y, x, ms, map[x := n, y := n]);
    assert Relative(ms[0]) == x && Relative(ms[1]) == y;
    hide Describes, AllSpelled, LinksResolve, DistinctNames, Relative;
    LinkFirstRaises(x, y, ms, map[x := n, y := n]);
  }

  // ---------------------------------------------------------------- feeding the hash

  /** An incremental hash: only what it was fed matters. */
  class Hasher {
    var fed: Bytes

    constructor ()
      ensures fed == []
    {
      fed := [];
    }

    method Update(b: Bytes)
      modifies this
      ensures fed == old(fed) + b
    {
      fed := fed + b;
    }

    method UpdateField(b: Bytes)
      modifies this
      ensures fed == old(fed) + Field(b)
    {
      Update(b);
      Update([0]);
    }

    method FeedEntry(e: Entry)
      modifies this
      ensures fed == old(fed) + Encode(e)
    {
      hide Field, Numeral, KindName;
      UpdateField(e.path);
      UpdateField(KindName(e.kind));
      UpdateField(Numeral(e.mode, 8));
      UpdateField(Numeral(e.uid, 10));
      UpdateField(Numeral(e.gid, 10));
      UpdateField(e.payload);
    }

    method FeedAll(es: seq<Entry>)
      modifies this
      ensures fed == old(fed) + EncodeAll(es)
    {
      hide Encode;
      var i := 0;
      ghost var sofar: Bytes := [];
      while i < |es|
        invariant 0 <= i <= |es| && fed == old(fed) + sofar && sofar + EncodeAll(es[i..]) == EncodeAll(es)
      {
        assert es[i..][0] == es[i] && es[i..][1..] == es[i + 1..];
        FeedEntry(es[i]);
        sofar := sofar + Encode(es[i]);
        i := i + 1;
      }
    }
  }

  /** `digest_rootfs`: walk the listing in path order. */
  method DigestRootfs(listing: seq<Bytes>, t: Tree) returns (h: Hasher)
    requires forall p | p in listing :: p in t
    ensures fresh(h) && h.fed == TreePreImage(listing, t)
  {
    h := new Hasher();
    h.FeedAll(SortBy(TreeEntries(listing, t), PathKey));
  }

  /** `digest_rootfs_tar`: scan the stream, collecting entries and the contents hardlinks refer to. */
  method DigestRootfsTar(ms: seq<Member>) returns (ok: bool, h: Hasher)
    ensures fresh(h)
    ensures ok <==> TarPreImage(ms).Some?
    ensures ok ==> TarPreImage(ms) == Some(h.fed)
  {
    h := new Hasher();
    var entries: seq<Entry>, contents: map<Bytes, Bytes> := [], map[];
    var i := 0;
    while i < |ms|
      invariant 0 <= i <= |ms| && ScanAll(ms[..i]) == Some(Scan(entries, contents)) && h.fed == []
    {
      var m := ms[i];
      assert ms[..i + 1][..i] == ms[..i];
      if Relative(m) != [] {
        var e := EntryOf(m, contents);
        if e.None? {
          ScanStaysFailed(ms, i + 1);
          return false, h;
        }
        if m.typ == Regular { contents := contents[Relative(m) := m.content]; }
        entries := entries + [e.value];
      }
      i := i + 1;
    }
    assert ms[..|ms|] == ms;
    ghost var stream := EncodeAll(SortBy(entries, PathKey));
    assert TarPreImage(ms) == Some(stream);
    h.FeedAll(SortBy(entries, PathKey));
    assert h.fed == [] + stream == stream;
    ok := true;
  }

  lemma {:induction false} ScanStaysFailed(ms: seq<Member>, k: nat)
    requires k <= |ms| && ScanAll(ms[..k]).None?
    ensures ScanAll(ms).None?
    decreases |ms|
  {
    if k == |ms| {
      assert ms[..k] == ms;
    } else {
      assert ms[..|ms| - 1][..k] == ms[..k];
      ScanStaysFailed(ms[..|ms| - 1], k);
    }
  }
}
