/** What the change set counts as no change, said without canonical forms: two dumped values are the same but for
    the order of evidence references. */
module DiffMeaning {
  import opened ChangeSet
  import opened OpportunityDiff

  /** Evidence references are lists of references, wherever they occur. */
  predicate Dumped(x: Json)
    decreases x, 0
  {
    match x
    case Obj(fields) => forall f | f in fields :: DumpedAt(f, fields[f])
    case Arr(items) => forall i | 0 <= i < |items| :: Dumped(items[i])
    case _ => true
  }

  predicate DumpedAt(f: string, x: Json)
    decreases x, 1
  {
    Dumped(x) && (f == "evidence_refs" && x.Arr? ==> AreRefs(x.items))
  }

  /** Equal leaves, equal keys, equal lists item by item; but lists of evidence references in any order. */
  predicate Same(x: Json, y: Json)
    decreases x, 0
  {
    match x
    case Obj(fields) =>
      y.Obj? && fields.Keys == y.fields.Keys && forall f | f in fields :: SameAt(f, fields[f], y.fields[f])
    case Arr(items) => y.Arr? && |items| == |y.items| && forall i | 0 <= i < |items| :: Same(items[i], y.items[i])
    case _ => x == y
  }

  /** The two values of field `f` are the same. */
  predicate SameAt(f: string, x: Json, y: Json)
    decreases x, 1
  {
    if f == "evidence_refs" && x.Arr? && y.Arr? then multiset(x.items) == multiset(y.items) else Same(x, y)
  }

  lemma ShapeOfCanon(x: Json)
    ensures Canon(x).Obj? <==> x.Obj?
    ensures Canon(x).Arr? <==> x.Arr?
    ensures !x.Obj? && !x.Arr? ==> Canon(x) == x
    ensures x.Arr? ==> |Canon(x).items| == |x.items|
    ensures x.Arr? ==> forall i | 0 <= i < |x.items| :: Canon(x).items[i] == Canon(x.items[i])
  {
  }

  lemma ListsAgree(x: Json, y: Json)
    requires x.Arr? && y.Arr?
    ensures Canon(x) == Canon(y) <==>
            |x.items| == |y.items| && forall i | 0 <= i < |x.items| :: Canon(x.items[i]) == Canon(y.items[i])
  {
    ShapeOfCanon(x);
    ShapeOfCanon(y);
    hide Canon;
    if |x.items| == |y.items| && forall i | 0 <= i < |x.items| :: Canon(x.items[i]) == Canon(y.items[i]) {
      assert Canon(x).items == Canon(y).items;
    }
  }

  lemma ObjectsAgree(x: Json, y: Json)
    requires x.Obj? && y.Obj?
    ensures Canon(x) == Canon(y) <==>
            x.fields.Keys == y.fields.Keys
            && forall f | f in x.fields :: CanonField(f, Canon(x.fields[f])) == CanonField(f, Canon(y.fields[f]))
  {
    CanonOfObject(x);
    CanonOfObject(y);
    hide Canon, CanonField;
    if x.fields.Keys == y.fields.Keys
       && forall f | f in x.fields :: CanonField(f, Canon(x.fields[f])) == CanonField(f, Canon(y.fields[f]))
    {
      SameFieldsSameValue(Canon(x), Canon(y));
    }
  }

  /** Canonical forms are equal exactly for values that are the same. */
  lemma {:induction false} CanonExactlyWhen(x: Json, y: Json)
    requires Dumped(x) && Dumped(y)
    ensures Canon(x) == Canon(y) <==> Same(x, y)
  {
    ShapeOfCanon(x);
    ShapeOfCanon(y);
    if x.Obj? && y.Obj? {
      ObjectsAgree(x, y);
      forall f | f in x.fields && f in y.fields
        ensures CanonField(f, Canon(x.fields[f])) == CanonField(f, Canon(y.fields[f]))
                <==> SameAt(f, x.fields[f], y.fields[f])
      {
        CanonExactlyWhen(x.fields[f], y.fields[f]);
        FieldsAgree(f, x.fields[f], y.fields[f]);
      }
      hide Canon, CanonField;
    } else if x.Arr? && y.Arr? {
      ListsAgree(x, y);
      forall i | 0 <= i < |x.items| && i < |y.items|
        ensures Canon(x.items[i]) == Canon(y.items[i]) <==> Same(x.items[i], y.items[i])
      {
        CanonExactlyWhen(x.items[i], y.items[i]);
      }
      hide Canon, CanonField;
    }
  }

  lemma FieldsAgree(f: string, x: Json, y: Json)
    requires DumpedAt(f, x) && DumpedAt(f, y) && (Canon(x) == Canon(y) <==> Same(x, y))
    ensures CanonField(f, Canon(x)) == CanonField(f, Canon(y)) <==> SameAt(f, x, y)
  {
    ShapeOfCanon(x);
    ShapeOfCanon(y);
    if f == "evidence_refs" && x.Arr? && y.Arr? { EvidenceOrderIsNoise(x.items, y.items); }
  }

  // ---------------------------------------------------------------- what a change set says

  lemma GetOfCanon(x: Json, f: string)
    requires x.Obj?
    ensures Get(Canon(x).fields, f) == CanonField(f, Canon(Get(x.fields, f)))
  {
    CanonOfObject(x);
  }

  lemma GetIsDumped(x: Json, f: string)
    requires x.Obj? && Dumped(x)
    ensures DumpedAt(f, Get(x.fields, f))
  {
  }

  /** A field is listed exactly when its two values differ, a missing one counting as null. */
  lemma ChangedFieldExactlyWhen(x: Json, y: Json, f: string)
    requires x.Obj? && y.Obj? && Dumped(x) && Dumped(y)
    ensures f in ChangedFields(x, y) <==>
            (f in x.fields || f in y.fields) && !SameAt(f, Get(x.fields, f), Get(y.fields, f))
  {
    CanonOfObject(x);
    CanonOfObject(y);
    GetOfCanon(x, f);
    GetOfCanon(y, f);
    GetIsDumped(x, f);
    GetIsDumped(y, f);
    hide Canon, CanonField, Dumped, Get;
    var a, b := Get(x.fields, f), Get(y.fields, f);
    CanonExactlyWhen(a, b);
    FieldsAgree(f, a, b);
  }

  predicate AllDumped(m: Keyed) { forall k | k in m :: m[k].Obj? && Dumped(m[k]) }

  /** The fields of two dumped objects that differ. */
  function Differing(x: Json, y: Json): set<string>
    requires x.Obj? && y.Obj?
  {
    set f | f in x.fields.Keys + y.fields.Keys && !SameAt(f, Get(x.fields, f), Get(y.fields, f))
  }

  lemma ChangedFieldsAreThoseThatDiffer(x: Json, y: Json)
    requires x.Obj? && y.Obj? && Dumped(x) && Dumped(y)
    ensures ChangedFields(x, y) == Differing(x, y)
  {
    hide ChangedFields, SameAt, Get;
    forall f ensures f in ChangedFields(x, y) <==> f in Differing(x, y) { ChangedFieldExactlyWhen(x, y, f); }
  }

  /** What is reported of a key: that it came, that it went, which of its fields differ, or nothing. */
  lemma DiffReportsExactly(l: Keyed, r: Keyed, gone: Change, k: string)
    requires AllObjects(l) && AllObjects(r) && AllDumped(l) && AllDumped(r)
    ensures var d := Diff(l, r, gone);
            && (k !in l && k in r ==> k in d && d[k] == Added)
            && (k in l && k !in r ==> k in d && d[k] == gone)
            && (k !in l && k !in r ==> k !in d)
            && (k in l && k in r ==>
                  var differing := Differing(l[k], r[k]);
                  if differing == {} then k !in d else k in d && d[k] == Changed(differing))
  {
    if k in l && k in r { ChangedFieldsAreThoseThatDiffer(l[k], r[k]); }
    hide ChangedFields, Differing, Dumped;
  }

  /** The same for every section of the whole change set. */
  lemma ChangeSetReportsExactly(parent: State, child: State, c: Changes, i: nat, k: string)
    requires i < 8 && AllDumped(Sections(parent)[i]) && AllDumped(Sections(child)[i])
    requires AllObjects(Sections(parent)[i]) && AllObjects(Sections(child)[i])
    requires Maps(c)[i] == Diff(Sections(parent)[i], Sections(child)[i], Gone(i))
    ensures var l, r, changes := Sections(parent)[i], Sections(child)[i], Maps(c)[i];
            && (k !in l && k in r ==> k in changes && changes[k] == Added)
            && (k in l && k !in r ==> k in changes && changes[k] == if i == 7 then Resolved else Removed)
            && (k !in l && k !in r ==> k !in changes)
            && (k in l && k in r ==>
                  var differing := Differing(l[k], r[k]);
                  if differing == {} then k !in changes else k in changes && changes[k] == Changed(differing))
  {
    DiffReportsExactly(Sections(parent)[i], Sections(child)[i], Gone(i), k);
  }

  /** Nothing differs exactly between values that are the same. */
  lemma NothingDiffersExactlyWhen(x: Json, y: Json)
    requires SameModel(x, y)
    ensures Differing(x, y) == {} <==> Same(x, y)
  {
    if Differing(x, y) == {} {
      forall f | f in x.fields ensures SameAt(f, x.fields[f], y.fields[f]) { assert f !in Differing(x, y); }
    }
  }

  /** A key absent from every change set of a chain is the same at both ends. */
  lemma UnreportedKeyStaysSame(chain: seq<Keyed>, gone: Change, k: string)
    requires chain != [] && AllDumped(chain[0]) && AllDumped(chain[|chain| - 1])
    requires forall i, j | 0 <= i < j < |chain| && j == i + 1 ::
               && AllObjects(chain[i]) && AllObjects(chain[j])
               && (forall n | n in chain[i] && n in chain[j] :: chain[i][n].fields.Keys == chain[j][n].fields.Keys)
               && k !in Diff(chain[i], chain[j], gone)
    ensures var first, last := chain[0], chain[|chain| - 1];
            (k in first <==> k in last) && (k in first ==> Same(first[k], last[k]))
  {
    forall i, j | 0 <= i < j < |chain| && j == i + 1 ensures Comparable(chain[i], chain[j]) { }
    UnreportedKeyNeverMoved(chain, gone, k);
    if k in chain[0] { CanonExactlyWhen(chain[0][k], chain[|chain| - 1][k]); }
  }

  lemma OverwrittenIsDumped(x: Json, names: set<string>, y: Json)
    requires x.Obj? && y.Obj? && Dumped(x) && Dumped(y)
    ensures Dumped(Overwrite(x, names, y))
  {
  }

  /** The parent plus the change set is the child, key by key, but for the order of evidence references. */
  lemma RebuiltIsSame(l: Keyed, r: Keyed, gone: Change)
    requires AllObjects(l) && AllObjects(r) && AllDumped(l) && AllDumped(r) && (gone == Removed || gone == Resolved)
    requires forall k | k in l && k in r :: l[k].fields.Keys == r[k].fields.Keys
    ensures var x := Rebuild(l, Diff(l, r, gone), r); x.Keys == r.Keys && forall k | k in r :: Same(x[k], r[k])
  {
    assert Comparable(l, r);
    DiffIsSound(l, r, gone);
    var x := Rebuild(l, Diff(l, r, gone), r);
    forall k | k in r ensures Same(x[k], r[k]) {
      if k in l { OverwrittenIsDumped(l[k], ChangedFields(l[k], r[k]), r[k]); }
      hide Same, Canon, Overwrite, ChangedFields;
      CanonExactlyWhen(x[k], r[k]);
    }
  }
}
