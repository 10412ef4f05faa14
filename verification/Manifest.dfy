/** The evidence manifest's order-independent digest, up to the bytes that are hashed. */
module Manifest {
  import opened Sorting

  datatype Entry = Entry(sourceType: string, sourceId: string, sha256: string, byteCount: nat)

  function SortKey(e: Entry): seq<string> { [e.sourceType, e.sourceId, e.sha256] }

  /** The list `evidence_manifest_hash` encodes and hashes. */
  function PreImage(entries: seq<Entry>): seq<Entry> { SortBy(entries, SortKey) }

  /** For validated manifests the digest's pre-image is exactly the set of entries: permutations agree, and
      equal pre-images come from the same entries. */
  lemma DigestIsOrderIndependent(a: seq<Entry>, b: seq<Entry>)
    requires forall i, j | 0 <= i < j < |a| :: !(a[i].sourceType == a[j].sourceType && a[i].sourceId == a[j].sourceId)
    requires forall i, j | 0 <= i < j < |b| :: !(b[i].sourceType == b[j].sourceType && b[i].sourceId == b[j].sourceId)
    ensures PreImage(a) == PreImage(b) <==> multiset(a) == multiset(b)
    ensures PreImage(a) == PreImage(b) ==> forall e :: e in a <==> e in b
  {
    SortSorts(a, SortKey);
    SortSorts(b, SortKey);
    if multiset(a) == multiset(b) {
      forall x, y | x in multiset(a) && y in multiset(a) && SortKey(x) == SortKey(y) ensures x == y {
        var i :| 0 <= i < |a| && a[i] == x;
        var j :| 0 <= j < |a| && a[j] == y;
        assert SortKey(x)[0] == x.sourceType && SortKey(x)[1] == x.sourceId;
        assert SortKey(y)[0] == y.sourceType && SortKey(y)[1] == y.sourceId;
      }
      OrderedIsUnique(PreImage(a), PreImage(b), SortKey);
    }
    if PreImage(a) == PreImage(b) {
      forall e ensures e in a <==> e in b { assert e in multiset(a) <==> e in multiset(b); }
    }
  }

  /** Without unique identities two orders of one manifest may differ: the byte count is not in the sort key. */
  lemma DuplicatesBreakOrderIndependence(t: string, id: string, sha: string, m: nat, n: nat)
    ensures var x, y := Entry(t, id, sha, m), Entry(t, id, sha, n);
            PreImage([x, y]) == PreImage([y, x]) <==> m == n
  {
    var x, y := Entry(t, id, sha, m), Entry(t, id, sha, n);
    TupleTotal(SortKey(x), SortKey(y));
    assert [x, y][1..] == [y] && [y, x][1..] == [x] && [x][1..] == [] && [y][1..] == [];
    assert SortBy([y], SortKey) == [y] && SortBy([x], SortKey) == [x];
    assert PreImage([x, y]) == [x, y] && PreImage([y, x]) == [y, x];
  }
}
