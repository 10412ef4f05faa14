/** The whole change set of a revision: its sections, its declared sizes, and the evidence it reports. */
module ChangeSet {
  import opened OpportunityDiff

  const GAPS := "stakeholder-gaps"

  /** Lists are keyed items; `brief` and `businessCase` have fixed keys; `gaps` holds the stakeholder map's
      missing information and missing roles. */
  datatype State = State(
    brief: Keyed, businessCase: Keyed, meddpicc: seq<Item>, stakeholders: seq<Item>, gaps: Json,
    health: seq<Item>, risks: seq<Item>, actions: seq<Item>, missing: seq<Item>)

  predicate ValidItems(items: seq<Item>, most: nat) {
    |items| <= most && UniqueKeys(items) && forall i | 0 <= i < |items| :: items[i].body.Obj?
  }

  /** What the state's own validators guarantee. */
  predicate Valid(s: State) {
    && AllObjects(s.brief) && |s.brief| == 5 && AllObjects(s.businessCase) && |s.businessCase| == 4
    && ValidItems(s.meddpicc, 8) && |s.meddpicc| == 8 && ValidItems(s.health, 4) && |s.health| == 4
    && ValidItems(s.stakeholders, 24) && (forall i | 0 <= i < |s.stakeholders| :: s.stakeholders[i].key != GAPS)
    && s.gaps.Obj? && s.gaps.fields.Keys == {"missing_information", "missing_key_roles"}
    && ValidItems(s.risks, 12) && ValidItems(s.actions, 12) && ValidItems(s.missing, 24)
  }

  datatype Changes = Changes(
    brief: map<string, Change>, businessCase: map<string, Change>, meddpicc: map<string, Change>,
    stakeholders: map<string, Change>, health: map<string, Change>, risks: map<string, Change>,
    actions: map<string, Change>, missing: map<string, Change>)

  lemma ValidItemsAreObjects(items: seq<Item>, most: nat)
    requires ValidItems(items, most)
    ensures AllObjects(ByKey(items))
  {
    ByKeyHolds(items);
    forall k | k in ByKey(items) ensures ByKey(items)[k].Obj? {
      var i :| 0 <= i < |items| && items[i] == Item(k, ByKey(items)[k]);
    }
  }

  /** The stakeholders with their gaps as one more, reserved, item. */
  function StakeholderMap(s: State): Keyed { ByKey(s.stakeholders)[GAPS := s.gaps] }

  function Sections(s: State): seq<Keyed> {
    [s.brief, s.businessCase, ByKey(s.meddpicc), StakeholderMap(s), ByKey(s.health),
     ByKey(s.risks), ByKey(s.actions), ByKey(s.missing)]
  }

  /** Dropped missing information counts as resolved, anything else as removed. */
  function Gone(section: nat): Change { if section == 7 then Resolved else Removed }

  function Maps(c: Changes): seq<map<string, Change>> {
    [c.brief, c.businessCase, c.meddpicc, c.stakeholders, c.health, c.risks, c.actions, c.missing]
  }

  lemma SectionsAreObjects(s: State)
    requires Valid(s)
    ensures forall i | 0 <= i < 8 :: AllObjects(Sections(s)[i])
  {
    ValidItemsAreObjects(s.meddpicc, 8);
    ValidItemsAreObjects(s.stakeholders, 24);
    ValidItemsAreObjects(s.health, 4);
    ValidItemsAreObjects(s.risks, 12);
    ValidItemsAreObjects(s.actions, 12);
    ValidItemsAreObjects(s.missing, 24);
  }

  /** The appended gap entry is what the diff of one more, reserved, item would be. */
  lemma GapsAreOneMoreItem(l: Keyed, r: Keyed, gl: Json, gr: Json)
    requires AllObjects(l) && AllObjects(r) && gl.Obj? && gr.Obj? && GAPS !in l && GAPS !in r
    ensures Diff(l[GAPS := gl], r[GAPS := gr], Removed)
         == if ChangedFields(gl, gr) == {} then Diff(l, r, Removed)
            else Diff(l, r, Removed)[GAPS := Changed(ChangedFields(gl, gr))]
  {
    hide ChangedFields;
  }

  lemma ReservedKeyIsFree(s: State)
    requires Valid(s)
    ensures GAPS !in ByKey(s.stakeholders)
  {
    ByKeyHolds(s.stakeholders);
  }

  method FixedChanges(parent: Keyed, child: Keyed) returns (changes: map<string, Change>)
    requires AllObjects(parent) && AllObjects(child) && parent.Keys == child.Keys
    ensures changes == Diff(parent, child, Removed)
  {
    var keys := SortedKeys(parent.Keys);
    forall k | k in keys ensures k in parent { OpportunityDiff.Listed(keys, parent.Keys, k); }
    var list := ReportKeys(keys, parent, child, Removed);
    AmongAll(Diff(parent, child, Removed), keys);
    changes := AsMap(list);
  }

  method ListChanges(parent: seq<Item>, child: seq<Item>, gone: Change, ghost most: nat)
    returns (changes: map<string, Change>)
    requires ValidItems(parent, most) && ValidItems(child, most)
    ensures AllObjects(ByKey(parent)) && AllObjects(ByKey(child))
    ensures changes == Diff(ByKey(parent), ByKey(child), gone)
  {
    ValidItemsAreObjects(parent, most);
    ValidItemsAreObjects(child, most);
    var list := KeyedChanges(parent, child, gone);
    changes := AsMap(list);
  }

  /** `deterministic_change_set`: every section, gaps included, is the diff of that section. */
  method DeterministicChangeSet(parent: State, child: State) returns (c: Changes)
    requires Valid(parent) && Valid(child)
    requires parent.brief.Keys == child.brief.Keys && parent.businessCase.Keys == child.businessCase.Keys
    ensures forall i | 0 <= i < 8 :: AllObjects(Sections(parent)[i]) && AllObjects(Sections(child)[i])
    ensures forall i | 0 <= i < 8 :: Maps(c)[i] == Diff(Sections(parent)[i], Sections(child)[i], Gone(i))
  {
    hide Diff, ByKey, UniqueKeys;
    SectionsAreObjects(parent);
    SectionsAreObjects(child);
    var brief := FixedChanges(parent.brief, child.brief);
    var business := FixedChanges(parent.businessCase, child.businessCase);
    var meddpicc := ListChanges(parent.meddpicc, child.meddpicc, Removed, 8);
    var stakeholders := ListChanges(parent.stakeholders, child.stakeholders, Removed, 24);
    var gapFields := ChangedFields(parent.gaps, child.gaps);
    ReservedKeyIsFree(parent);
    ReservedKeyIsFree(child);
    GapsAreOneMoreItem(ByKey(parent.stakeholders), ByKey(child.stakeholders), parent.gaps, child.gaps);
    if gapFields != {} { stakeholders := stakeholders[GAPS := Changed(gapFields)]; }
    var health := ListChanges(parent.health, child.health, Removed, 4);
    var risks := ListChanges(parent.risks, child.risks, Removed, 12);
    var actions := ListChanges(parent.actions, child.actions, Removed, 12);
    var missing := ListChanges(parent.missing, child.missing, Resolved, 24);
    c := Changes(brief, business, meddpicc, stakeholders, health, risks, actions, missing);
  }

  /** Sound for the whole state: in every section the parent plus the change set is the child up to canonical
      form. */
  lemma ChangeSetRebuildsChild(parent: State, child: State, c: Changes, i: nat)
    requires Valid(parent) && Valid(child) && i < 8
    requires Comparable(Sections(parent)[i], Sections(child)[i])
    requires Maps(c)[i] == Diff(Sections(parent)[i], Sections(child)[i], Gone(i))
    ensures var x := Rebuild(Sections(parent)[i], Maps(c)[i], Sections(child)[i]);
            x.Keys == Sections(child)[i].Keys
            && forall k | k in Sections(child)[i] :: Canon(x[k]) == Canon(Sections(child)[i][k])
  {
    DiffIsSound(Sections(parent)[i], Sections(child)[i], Gone(i));
  }

  // ---------------------------------------------------------------- declared sizes

  lemma SubsetSize<T>(a: set<T>, b: set<T>)
    requires a <= b
    ensures |a| <= |b| && (|a| == |b| ==> a == b)
  {
    assert b == a + (b - a);
    assert |b| == |a| + |b - a|;
  }

  lemma UnionSize<T>(a: set<T>, b: set<T>)
    ensures |a + b| <= |a| + |b| && (|a + b| == |a| + |b| <==> a * b == {})
  {
    assert a + b == a + (b - a);
    assert |a + b| == |a| + |b - a|;
    SubsetSize(b - a, b);
    assert b - a == b <==> a * b == {};
  }

  lemma {:induction false} KeyCount(items: seq<Item>)
    ensures |ByKey(items)| <= |items|
    ensures UniqueKeys(items) ==> |ByKey(items)| == |items|
  {
    if items != [] {
      var init, last := items[..|items| - 1], items[|items| - 1];
      KeyCount(init);
      assert ByKey(items).Keys == ByKey(init).Keys + {last.key};
      if UniqueKeys(items) {
        ByKeyHolds(init);
        assert UniqueKeys(init);
        assert last.key !in ByKey(init);
      }
    }
  }

  /** A section's list is no longer than the union of the two sides' keys, and with one fixed key set no
      longer than that set. */
  lemma DiffSize(l: Keyed, r: Keyed, gone: Change)
    requires AllObjects(l) && AllObjects(r)
    ensures |Diff(l, r, gone)| <= |l| + |r|
    ensures l.Keys == r.Keys ==> |Diff(l, r, gone)| <= |l|
    ensures |Diff(l, r, gone)| == |l| + |r| <==> l.Keys !! r.Keys
  {
    DiffKeys(l, r, gone);
    hide Diff;
    KeysSize(Diff(l, r, gone).Keys, l.Keys, r.Keys);
  }

  lemma KeysSize<T>(d: set<T>, l: set<T>, r: set<T>)
    requires d <= l + r && (l !! r ==> d == l + r)
    ensures |d| <= |l| + |r| && (|d| == |l| + |r| <==> l !! r) && (l == r ==> |d| <= |l|)
  {
    SubsetSize(d, l + r);
    UnionSize(l, r);
    assert l * r == {} <==> l !! r by { forall x | x in l && x in r ensures x in l * r { } }
    if l == r { assert l + r == l; }
  }

  lemma DiffKeys(l: Keyed, r: Keyed, gone: Change)
    requires AllObjects(l) && AllObjects(r)
    ensures Diff(l, r, gone).Keys <= l.Keys + r.Keys
    ensures l.Keys !! r.Keys ==> Diff(l, r, gone).Keys == l.Keys + r.Keys
  {
    hide ChangedFields;
  }

  /** Every declared maximum but one follows from the states' own limits. */
  lemma SizesFit(parent: State, child: State)
    requires Valid(parent) && Valid(child)
    requires parent.brief.Keys == child.brief.Keys && parent.businessCase.Keys == child.businessCase.Keys
    requires ByKey(parent.meddpicc).Keys == ByKey(child.meddpicc).Keys
    requires ByKey(parent.health).Keys == ByKey(child.health).Keys
    ensures forall i | 0 <= i < 8 :: AllObjects(Sections(parent)[i]) && AllObjects(Sections(child)[i])
    ensures forall i | 0 <= i < 8 && i != 3 ::
              |Diff(Sections(parent)[i], Sections(child)[i], Gone(i))| <= [5, 4, 8, 48, 4, 24, 24, 48][i]
  {
    hide Diff, ByKey, UniqueKeys;
    SectionsAreObjects(parent);
    SectionsAreObjects(child);
    KeyCount(parent.meddpicc);
    KeyCount(parent.health);
    KeyCount(parent.risks);
    KeyCount(child.risks);
    KeyCount(parent.actions);
    KeyCount(child.actions);
    KeyCount(parent.missing);
    KeyCount(child.missing);
    forall i | 0 <= i < 8 && i != 3
      ensures |Diff(Sections(parent)[i], Sections(child)[i], Gone(i))| <= [5, 4, 8, 48, 4, 24, 24, 48][i]
    {
      DiffSize(Sections(parent)[i], Sections(child)[i], Gone(i));
    }
  }

  lemma GapsAddOne(l: Keyed, r: Keyed, gl: Json, gr: Json)
    requires AllObjects(l) && AllObjects(r) && gl.Obj? && gr.Obj? && GAPS !in l && GAPS !in r
    ensures |Diff(l[GAPS := gl], r[GAPS := gr], Removed)|
         == |Diff(l, r, Removed)| + if ChangedFields(gl, gr) == {} then 0 else 1
  {
    GapsAreOneMoreItem(l, r, gl, gr);
    hide ChangedFields, Diff;
    var d := Diff(l, r, Removed);
    assert GAPS !in d;
    var f := Changed(ChangedFields(gl, gr));
    assert d[GAPS := f].Keys == d.Keys + {GAPS};
  }

  lemma MapsOverflow(l: Keyed, r: Keyed, gl: Json, gr: Json)
    requires AllObjects(l) && AllObjects(r) && gl.Obj? && gr.Obj? && GAPS !in l && GAPS !in r
    requires |l| <= 24 && |r| <= 24
    ensures |Diff(l[GAPS := gl], r[GAPS := gr], Removed)| > 48
            <==> |l| == 24 && |r| == 24 && l.Keys !! r.Keys && ChangedFields(gl, gr) != {}
  {
    GapsAddOne(l, r, gl, gr);
    DiffSize(l, r, Removed);
    hide Diff, ChangedFields;
  }

  lemma StakeholderFacts(s: State)
    requires Valid(s)
    ensures AllObjects(ByKey(s.stakeholders)) && AllObjects(StakeholderMap(s)) && GAPS !in ByKey(s.stakeholders)
    ensures |ByKey(s.stakeholders)| == |s.stakeholders| <= 24 && s.gaps.Obj?
  {
    ValidItemsAreObjects(s.stakeholders, 24);
    KeyCount(s.stakeholders);
    ReservedKeyIsFree(s);
  }

  /** The stakeholder list is declared at most 48 long, and overflows, so that the revision is refused, exactly
      when both maps are full, share no key, and the gaps changed too: 24 + 24 + 1. */
  lemma StakeholdersOverflowExactlyWhen(parent: State, child: State)
    requires Valid(parent) && Valid(child)
    ensures AllObjects(StakeholderMap(parent)) && AllObjects(StakeholderMap(child))
    ensures |Diff(StakeholderMap(parent), StakeholderMap(child), Removed)| > 48
            <==> |parent.stakeholders| == 24 && |child.stakeholders| == 24
                 && ByKey(parent.stakeholders).Keys !! ByKey(child.stakeholders).Keys
                 && ChangedFields(parent.gaps, child.gaps) != {}
  {
    hide Valid, ByKey, Diff, ChangedFields, AllObjects;
    StakeholderFacts(parent);
    StakeholderFacts(child);
    MapsOverflow(ByKey(parent.stakeholders), ByKey(child.stakeholders), parent.gaps, child.gaps);
  }

  // ---------------------------------------------------------------- evidence sources

  datatype SourceType = Transcript | OpportunityMetadata

  datatype Source = Source(kind: SourceType, id: string)

  datatype SourceChange = NewSource | Replaced

  /** A validated manifest: each source's digest. */
  type Digests = map<Source, string>

  function EvidenceChanges(parent: Digests, child: Digests): map<Source, SourceChange> {
    map s | s in child && (s !in parent || parent[s] != child[s]) :: if s !in parent then NewSource else Replaced
  }

  function ListedChanges(parent: Digests, child: Digests): map<Source, SourceChange> {
    var all := EvidenceChanges(parent, child);
    map s | s in all && s.kind != OpportunityMetadata :: all[s]
  }

  /** The evidence part of the change set: metadata has a flag of its own and leaves the list. */
  method EvidenceSources(parent: Digests, child: Digests) returns (listed: map<Source, SourceChange>,
    metadataChanged: bool)
    ensures listed == ListedChanges(parent, child)
    ensures metadataChanged <==> exists s | s in EvidenceChanges(parent, child) :: s.kind == OpportunityMetadata
  {
    var changes: map<Source, SourceChange>, left := map[], child.Keys;
    while left != {}
      invariant left <= child.Keys
      invariant changes == map s | s in EvidenceChanges(parent, child) && s !in left ::
        EvidenceChanges(parent, child)[s]
      decreases |left|
    {
      var s :| s in left;
      left := left - {s};
      if s !in parent {
        changes := changes[s := NewSource];
      } else if parent[s] != child[s] {
        changes := changes[s := Replaced];
      }
    }
    assert changes == EvidenceChanges(parent, child);
    metadataChanged := exists s | s in changes :: s.kind == OpportunityMetadata;
    listed := map s | s in changes && s.kind != OpportunityMetadata :: changes[s];
  }

  /** Parent digests with the reported sources taken from the child. */
  function Patched(parent: Digests, child: Digests): Digests {
    parent + (map s | s in EvidenceChanges(parent, child) && s in child :: child[s])
  }

  /** The evidence part is a diff of additions only: applying it gives the child's manifest exactly when the
      child dropped no source, because a dropped source is never reported. */
  lemma EvidenceRebuildsExactlyWhen(parent: Digests, child: Digests)
    ensures Patched(parent, child) == child <==> parent.Keys <= child.Keys
  {
    var p := Patched(parent, child);
    assert p.Keys == parent.Keys + EvidenceChanges(parent, child).Keys;
    if parent.Keys <= child.Keys {
      forall s | s in child ensures s in p && p[s] == child[s] { }
      assert p.Keys == child.Keys;
    }
  }

  /** The list is declared at most 50 long; a manifest holds at most 51 sources.  It overflows exactly when all
      51 are transcripts that are new or replaced. */
  lemma EvidenceOverflowsExactlyWhen(parent: Digests, child: Digests)
    requires |child| <= 51
    ensures |ListedChanges(parent, child)| > 50
            <==> |child| == 51 && forall s | s in child ::
                   s.kind == Transcript && (s !in parent || parent[s] != child[s])
  {
    var d := ListedChanges(parent, child);
    assert d.Keys <= child.Keys;
    SubsetSize(d.Keys, child.Keys);
    if |child| == 51 && forall s | s in child :: s.kind == Transcript && (s !in parent || parent[s] != child[s]) {
      assert d.Keys == child.Keys;
    }
  }
}
