/** The deterministic diff between two opportunity states. */
module OpportunityDiff {
  import opened Sorting

  datatype Json =
    | Null
    | Bool(b: bool)
    | Num(n: int)
    | Str(s: string)
    | Arr(items: seq<Json>)
    | Obj(fields: map<string, Json>)

  // ---------------------------------------------------------------- canonical values

  function Text(j: Json, name: string): string {
    if j.Obj? && name in j.fields && j.fields[name].Str? then j.fields[name].s else ""
  }

  function RefKey(j: Json): seq<string> { [Text(j, "source_type"), Text(j, "source_id"), Text(j, "locator")] }

  /** `_canonical_change_value`: evidence references are sorted wherever they occur, nothing else is. */
  function Canon(j: Json): Json {
    match j
    case Obj(fields) => Obj(map name | name in fields :: CanonField(name, Canon(fields[name])))
    case Arr(items) => Arr(seq(|items|, i requires 0 <= i < |items| => Canon(items[i])))
    case _ => j
  }

  function CanonField(name: string, value: Json): Json {
    if name == "evidence_refs" && value.Arr? then Arr(SortBy(value.items, RefKey)) else value
  }

  /** A dumped evidence reference: three fields, and a locator that is null or not empty. */
  predicate IsRef(j: Json) {
    && j.Obj? && j.fields.Keys == {"source_type", "source_id", "locator"}
    && j.fields["source_type"].Str? && j.fields["source_id"].Str?
    && (j.fields["locator"] == Null || (j.fields["locator"].Str? && j.fields["locator"].s != ""))
  }

  lemma RefKeyTellsApart(a: Json, b: Json)
    requires IsRef(a) && IsRef(b) && RefKey(a) == RefKey(b)
    ensures a == b
  {
    assert RefKey(a)[0] == RefKey(b)[0] && RefKey(a)[1] == RefKey(b)[1] && RefKey(a)[2] == RefKey(b)[2];
    assert a.fields == b.fields;
  }

  lemma RefIsCanonical(a: Json)
    requires IsRef(a)
    ensures Canon(a) == a
  {
    assert Canon(a).fields == a.fields;
  }

  predicate AreRefs(items: seq<Json>) { forall i | 0 <= i < |items| :: IsRef(items[i]) }

  /** Evidence references compare as multisets: order and nothing but order is noise. */
  lemma EvidenceOrderIsNoise(a: seq<Json>, b: seq<Json>)
    requires AreRefs(a) && AreRefs(b)
    ensures CanonField("evidence_refs", Canon(Arr(a))) == CanonField("evidence_refs", Canon(Arr(b)))
            <==> multiset(a) == multiset(b)
  {
    forall i | 0 <= i < |a| ensures Canon(Arr(a)).items[i] == a[i] { RefIsCanonical(a[i]); }
    forall i | 0 <= i < |b| ensures Canon(Arr(b)).items[i] == b[i] { RefIsCanonical(b[i]); }
    assert Canon(Arr(a)).items == a && Canon(Arr(b)).items == b;
    forall x, y | x in multiset(a) + multiset(b) && y in multiset(a) + multiset(b) && RefKey(x) == RefKey(y)
      ensures x == y
    {
      assert x in a || x in b;
      assert y in a || y in b;
      RefKeyTellsApart(x, y);
    }
    SortIsCanonical(a, b, RefKey);
  }

  // ---------------------------------------------------------------- one item

  /** `left.get(key) != right.get(key)`, where a missing field reads as null. */
  function Get(fields: map<string, Json>, name: string): Json { if name in fields then fields[name] else Null }

  function ChangedFields(before: Json, after: Json): set<string>
    requires before.Obj? && after.Obj?
  {
    var l, r := Canon(before).fields, Canon(after).fields;
    set name | name in l.Keys + r.Keys && Get(l, name) != Get(r, name)
  }

  /** Two dumps of one model: the same fields. */
  predicate SameModel(a: Json, b: Json) { a.Obj? && b.Obj? && a.fields.Keys == b.fields.Keys }

  /** Overwrite only the listed fields with the other's values. */
  function Overwrite(x: Json, names: set<string>, y: Json): Json
    requires x.Obj? && y.Obj?
  {
    Obj(map f | f in x.fields.Keys + (names * y.fields.Keys) ::
          if f in names && f in y.fields then y.fields[f] else if f in x.fields then x.fields[f] else Null)
  }

  lemma CanonOfObject(x: Json)
    requires x.Obj?
    ensures Canon(x).Obj? && Canon(x).fields.Keys == x.fields.Keys
    ensures forall f | f in x.fields :: Canon(x).fields[f] == CanonField(f, Canon(x.fields[f]))
  {
  }

  lemma UnchangedAgrees(x: Json, y: Json, f: string)
    requires SameModel(x, y) && f in y.fields && f !in ChangedFields(x, y)
    ensures f in Canon(x).fields && f in Canon(y).fields && Canon(x).fields[f] == Canon(y).fields[f]
  {
    CanonOfObject(x);
    CanonOfObject(y);
    assert Get(Canon(x).fields, f) == Get(Canon(y).fields, f);
  }

  lemma SameFieldsSameValue(x: Json, y: Json)
    requires x.Obj? && y.Obj? && x.fields.Keys == y.fields.Keys
    requires forall f | f in y.fields :: x.fields[f] == y.fields[f]
    ensures x == y
  {
    assert x.fields == y.fields;
  }

  /** Overwriting just the reported fields yields the other item up to canonical form, every other field staying as
      it is, and nothing is reported exactly when the two are canonically equal. */
  lemma OverwriteChangedFields(x: Json, y: Json)
    requires SameModel(x, y)
    ensures Canon(Overwrite(x, ChangedFields(x, y), y)) == Canon(y)
    ensures var z := Overwrite(x, ChangedFields(x, y), y);
            forall f | f in x.fields && f !in ChangedFields(x, y) :: f in z.fields && z.fields[f] == x.fields[f]
    ensures ChangedFields(x, y) == {} <==> Canon(x) == Canon(y)
  {
    var z := Overwrite(x, ChangedFields(x, y), y);
    assert z.fields.Keys == y.fields.Keys;
    CanonOfObject(x);
    CanonOfObject(y);
    CanonOfObject(z);
    hide Canon, CanonField;
    forall f | f in y.fields ensures Canon(z).fields[f] == Canon(y).fields[f] {
      if f !in ChangedFields(x, y) { UnchangedAgrees(x, y, f); }
    }
    SameFieldsSameValue(Canon(z), Canon(y));
    if ChangedFields(x, y) == {} {
      forall f | f in y.fields ensures Canon(x).fields[f] == Canon(y).fields[f] { UnchangedAgrees(x, y, f); }
      SameFieldsSameValue(Canon(x), Canon(y));
    }
  }

  // ---------------------------------------------------------------- keyed items

  datatype Item = Item(key: string, body: Json)

  type Keyed = map<string, Json>

  datatype Change = Added | Removed | Resolved | Changed(fields: set<string>)

  datatype KeyedChange = KeyedChange(key: string, change: Change)

  function ByKey(items: seq<Item>): Keyed {
    if items == [] then map[] else ByKey(items[..|items| - 1])[items[|items| - 1].key := items[|items| - 1].body]
  }

  predicate UniqueKeys(items: seq<Item>) { forall i, j | 0 <= i < j < |items| :: items[i].key != items[j].key }

  predicate AllObjects(m: Keyed) { forall k | k in m :: m[k].Obj? }

  predicate Reported(k: string, l: Keyed, r: Keyed)
    requires AllObjects(l) && AllObjects(r)
  {
    if k in l && k in r then ChangedFields(l[k], r[k]) != {} else k in l || k in r
  }

  function ChangeOf(k: string, l: Keyed, r: Keyed, gone: Change): Change
    requires AllObjects(l) && AllObjects(r) && (k in l || k in r)
  {
    if k !in l then Added else if k !in r then gone else Changed(ChangedFields(l[k], r[k]))
  }

  function Diff(l: Keyed, r: Keyed, gone: Change): map<string, Change>
    requires AllObjects(l) && AllObjects(r)
  {
    map k | k in l.Keys + r.Keys && Reported(k, l, r) :: ChangeOf(k, l, r, gone)
  }

  function AsMap(changes: seq<KeyedChange>): map<string, Change> {
    if changes == [] then map[]
    else AsMap(changes[..|changes| - 1])[changes[|changes| - 1].key := changes[|changes| - 1].change]
  }

  predicate StrictlySorted(keys: seq<string>) {
    forall i, j | 0 <= i < j < |keys| :: StringLe(keys[i], keys[j]) && keys[i] != keys[j]
  }

  /** `sorted(set(left) | set(right))`. */
  method SortedKeys(keys: set<string>) returns (r: seq<string>)
    ensures StrictlySorted(r) && (set k | k in r) == keys
  {
    r := [];
    var left := keys;
    while left != {}
      invariant StrictlySorted(r) && (set k | k in r) + left == keys && (set k | k in r) !! left
      decreases |left|
    {
      var k :| k in left;
      r := InsertKey(k, r);
      left := left - {k};
    }
  }

  method InsertKey(k: string, s: seq<string>) returns (r: seq<string>)
    requires StrictlySorted(s) && k !in s
    ensures StrictlySorted(r) && (set x | x in r) == (set x | x in s) + {k}
  {
    hide StringLe;
    var i := 0;
    while i < |s| && StringLe(s[i], k)
      invariant 0 <= i <= |s| && forall j | 0 <= j < i :: StringLe(s[j], k)
    {
      i := i + 1;
    }
    r := s[..i] + [k] + s[i..];
    forall j | i <= j < |s| ensures StringLe(k, s[j]) && s[j] != k {
      KeyTotal(s[i], k);
      if j > i { KeyTransitive(k, s[i], s[j]); }
    }
    assert s == s[..i] + s[i..];
  }

  lemma KeyTotal(a: string, b: string)
    ensures StringLe(a, b) || StringLe(b, a)
  {
    LexTotal(a, b, (x: char, y: char) => x <= y);
  }

  lemma KeyTransitive(a: string, b: string, c: string)
    requires StringLe(a, b) && StringLe(b, c)
    ensures StringLe(a, c)
  {
    LexTransitive(a, b, c, (x: char, y: char) => x <= y);
  }

  function Among(d: map<string, Change>, ks: seq<string>): map<string, Change> { map k | k in ks && k in d :: d[k] }

  lemma AmongOneMore(d: map<string, Change>, ks: seq<string>, k: string)
    requires k !in ks
    ensures Among(d, ks + [k]) == if k in d then Among(d, ks)[k := d[k]] else Among(d, ks)
  {
  }

  lemma AsMapOneMore(changes: seq<KeyedChange>, c: KeyedChange)
    ensures AsMap(changes + [c]) == AsMap(changes)[c.key := c.change]
  {
    assert (changes + [c])[..|changes|] == changes;
  }

  /** One turn of the loop. */
  method DescribeChange(k: string, left: Keyed, right: Keyed, gone: Change) returns (report: bool, change: Change)
    requires AllObjects(left) && AllObjects(right) && (k in left || k in right)
    ensures report <==> k in Diff(left, right, gone)
    ensures report ==> change == Diff(left, right, gone)[k]
  {
    if k !in left { return true, Added; }
    if k !in right { return true, gone; }
    var fields := ChangedFields(left[k], right[k]);
    return fields != {}, Changed(fields);
  }

  predicate KeysFrom(changes: seq<KeyedChange>, keys: seq<string>, i: nat)
    requires i <= |keys|
  {
    forall c | c in changes :: c.key in keys[..i]
  }

  lemma SkipKey(changes: seq<KeyedChange>, keys: seq<string>, i: nat)
    requires i < |keys| && StrictlySorted(keys) && KeysFrom(changes, keys, i)
    ensures keys[i] !in keys[..i] && keys[..i + 1] == keys[..i] + [keys[i]]
    ensures KeysFrom(changes, keys, i + 1)
  {
    hide StringLe;
  }

  lemma AppendSorted(changes: seq<KeyedChange>, keys: seq<string>, i: nat, c: KeyedChange)
    requires i < |keys| && StrictlySorted(keys) && c.key == keys[i]
    requires ChangesSorted(changes) && KeysFrom(changes, keys, i)
    ensures ChangesSorted(changes + [c]) && KeysFrom(changes + [c], keys, i + 1)
  {
    hide StringLe;
    forall a | 0 <= a < |changes| ensures StringLe(changes[a].key, c.key) && changes[a].key != c.key {
      assert changes[a] in changes;
      var j :| 0 <= j < i && keys[j] == changes[a].key;
    }
    assert keys[..i + 1] == keys[..i] + [keys[i]];
  }

  predicate ChangesSorted(changes: seq<KeyedChange>) {
    forall i, j | 0 <= i < j < |changes| :: StringLe(changes[i].key, changes[j].key) && changes[i].key != changes[j].key
  }

  lemma Listed(keys: seq<string>, s: set<string>, k: string)
    requires (set x | x in keys) == s && k in keys
    ensures k in s
  {
    assert k in (set x | x in keys);
  }

  lemma AmongAll(d: map<string, Change>, ks: seq<string>)
    requires d.Keys <= (set k | k in ks)
    ensures Among(d, ks) == d
  {
    assert forall k | k in d :: k in (set x | x in ks);
  }

  method ReportKeys(keys: seq<string>, left: Keyed, right: Keyed, gone: Change) returns (changes: seq<KeyedChange>)
    requires AllObjects(left) && AllObjects(right) && StrictlySorted(keys)
    requires forall k | k in keys :: k in left || k in right
    ensures AsMap(changes) == Among(Diff(left, right, gone), keys) && ChangesSorted(changes)
  {
    changes := [];
    assert Among(Diff(left, right, gone), keys[..0]) == map[];
    hide AllObjects, AsMap, Among, Diff, StrictlySorted, ChangesSorted, KeysFrom;
    for i := 0 to |keys|
      invariant AsMap(changes) == Among(Diff(left, right, gone), keys[..i])
      invariant KeysFrom(changes, keys, i) && ChangesSorted(changes)
    {
      var k := keys[i];
      SkipKey(changes, keys, i);
      AmongOneMore(Diff(left, right, gone), keys[..i], k);
      var report, change := DescribeChange(k, left, right, gone);
      if report {
        AppendSorted(changes, keys, i, KeyedChange(k, change));
        AsMapOneMore(changes, KeyedChange(k, change));
        changes := changes + [KeyedChange(k, change)];
      }
    }
    assert keys[..|keys|] == keys;
  }

  /** `_keyed_changes`: reports exactly `Diff`, one change a key, in key order. */
  method KeyedChanges(before: seq<Item>, after: seq<Item>, gone: Change) returns (changes: seq<KeyedChange>)
    requires AllObjects(ByKey(before)) && AllObjects(ByKey(after))
    ensures AsMap(changes) == Diff(ByKey(before), ByKey(after), gone)
    ensures ChangesSorted(changes)
  {
    hide AsMap, ChangesSorted, StrictlySorted, ByKey, AllObjects;
    var left, right := ByKey(before), ByKey(after);
    var keys := SortedKeys(left.Keys + right.Keys);
    forall k | k in keys ensures k in left || k in right {
      Listed(keys, left.Keys + right.Keys, k);
    }
    changes := ReportKeys(keys, left, right, gone);
    AmongAll(Diff(left, right, gone), keys);
  }

  // ---------------------------------------------------------------- what the diff is worth

  /** The same items of one model, wherever both sides have the key. */
  predicate Comparable(l: Keyed, r: Keyed) {
    AllObjects(l) && AllObjects(r) && forall k | k in l && k in r :: SameModel(l[k], r[k])
  }

  /** Start from the parent, drop what is gone, insert what is added, overwrite the listed fields. */
  function Rebuild(l: Keyed, d: map<string, Change>, r: Keyed): Keyed
    requires AllObjects(l) && AllObjects(r)
  {
    map k | k in l.Keys + r.Keys && (if k in d then d[k].Added? || d[k].Changed? else k in l) ::
      if k in d && d[k].Added? && k in r then r[k]
      else if k in d && d[k].Changed? && k in l && k in r then Overwrite(l[k], d[k].fields, r[k])
      else if k in l then l[k] else Null
  }

  /** Sound: the change set turns the parent into the child, key by key, up to canonical form. */
  lemma DiffIsSound(l: Keyed, r: Keyed, gone: Change)
    requires Comparable(l, r) && (gone == Removed || gone == Resolved)
    ensures var x := Rebuild(l, Diff(l, r, gone), r);
            x.Keys == r.Keys && forall k | k in r :: Canon(x[k]) == Canon(r[k])
  {
    hide Canon, ChangedFields, Overwrite;
    var d := Diff(l, r, gone);
    var x := Rebuild(l, d, r);
    forall k | k in r ensures k in x && Canon(x[k]) == Canon(r[k]) {
      if k in l { OverwriteChangedFields(l[k], r[k]); }
    }
    forall k | k in x ensures k in r { }
  }

  /** And it leaves alone what it does not report, items and fields. */
  lemma RestIsUntouched(l: Keyed, r: Keyed, gone: Change, k: string)
    requires Comparable(l, r) && k in l
    ensures var d := Diff(l, r, gone);
            var x := Rebuild(l, d, r);
            && (k !in d ==> k in x && x[k] == l[k])
            && (k in d && k in r ==>
                  && d[k].Changed? && k in x && x[k].Obj?
                  && forall f | f in l[k].fields && f !in d[k].fields ::
                       f in x[k].fields && x[k].fields[f] == l[k].fields[f])
  {
    hide ChangedFields;
  }

  /** Complete: a key is unreported exactly when nothing happened to it. */
  lemma DiffIsComplete(l: Keyed, r: Keyed, gone: Change, k: string)
    requires Comparable(l, r)
    ensures k !in Diff(l, r, gone) <==>
            (k !in l && k !in r) || (k in l && k in r && Canon(l[k]) == Canon(r[k]))
  {
    if k in l && k in r { OverwriteChangedFields(l[k], r[k]); }
  }

  /** Along a revision chain a key absent from every change set is canonically the same at both ends. */
  lemma {:induction false} UnreportedKeyNeverMoved(chain: seq<Keyed>, gone: Change, k: string)
    requires chain != []
    requires forall i, j | 0 <= i < j < |chain| && j == i + 1 ::
               Comparable(chain[i], chain[j]) && k !in Diff(chain[i], chain[j], gone)
    ensures var first, last := chain[0], chain[|chain| - 1];
            (k in first <==> k in last) && (k in first ==> Canon(first[k]) == Canon(last[k]))
  {
    if |chain| > 1 {
      var n := |chain| - 1;
      UnreportedKeyNeverMoved(chain[..n], gone, k);
      DiffIsComplete(chain[n - 1], chain[n], gone, k);
    }
  }

  lemma {:induction false} ByKeyHolds(items: seq<Item>)
    ensures forall x | x in items :: x.key in ByKey(items)
    ensures forall k | k in ByKey(items) :: Item(k, ByKey(items)[k]) in items
    ensures UniqueKeys(items) ==> forall x | x in items :: ByKey(items)[x.key] == x.body
  {
    if items != [] {
      var init, last := items[..|items| - 1], items[|items| - 1];
      ByKeyHolds(init);
      assert items == init + [last];
      forall k | k in ByKey(items) ensures Item(k, ByKey(items)[k]) in items {
        if k != last.key { assert Item(k, ByKey(init)[k]) in init; }
      }
      if UniqueKeys(items) {
        assert UniqueKeys(init);
        forall x | x in items ensures ByKey(items)[x.key] == x.body {
          if x in init {
            var i :| 0 <= i < |init| && init[i] == x;
            assert items[i].key != items[|items| - 1].key;
          }
        }
      }
    }
  }

  /** List order is noise: reordering items with unique keys changes no change set. */
  lemma ItemOrderIsNoise(a: seq<Item>, b: seq<Item>)
    requires UniqueKeys(a) && UniqueKeys(b) && multiset(a) == multiset(b)
    ensures ByKey(a) == ByKey(b)
  {
    ByKeyHolds(a);
    ByKeyHolds(b);
    forall x ensures x in a <==> x in b { assert x in multiset(a) <==> x in multiset(b); }
    hide UniqueKeys, ByKey;
    forall k | k in ByKey(a) ensures k in ByKey(b) && ByKey(a)[k] == ByKey(b)[k] {
      assert Item(k, ByKey(a)[k]) in b;
    }
    forall k | k in ByKey(b) ensures k in ByKey(a) {
      assert Item(k, ByKey(b)[k]) in a;
    }
  }
}
