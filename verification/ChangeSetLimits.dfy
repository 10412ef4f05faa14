/** Revisions whose change set breaks its declared sizes or says too little. */
module ChangeSetLimits {
  import opened ChangeSet
  import opened DiffMeaning
  import opened OpportunityDiff

  // ---------------------------------------------------------------- a full state

  function BriefKeys(): seq<string> {
    ["customer_objective", "why_airbyte", "current_status", "path_to_decision", "immediate_priority"]
  }

  function BusinessKeys(): seq<string> {
    ["current_state", "future_state", "negative_consequences", "positive_business_outcomes"]
  }

  function DimensionKeys(): seq<string> {
    ["metrics", "economic_buyer", "decision_criteria", "decision_process", "paper_process", "identify_pain",
     "champion", "competition"]
  }

  function IndicatorKeys(): seq<string> { ["deal_qualification", "technical_fit", "timeline", "customer_sentiment"] }

  /** 24 stakeholder keys that begin with `group`. */
  function PeopleKeys(group: char): seq<string> { seq(24, i requires 0 <= i < 24 => [group, 'a' + i as char]) }

  predicate Distinct(keys: seq<string>) { forall i, j | 0 <= i < j < |keys| :: keys[i] != keys[j] }

  lemma KeysAreDistinct(group: char)
    ensures Distinct(BriefKeys()) && |BriefKeys()| == 5 && Distinct(BusinessKeys()) && |BusinessKeys()| == 4
    ensures Distinct(DimensionKeys()) && |DimensionKeys()| == 8 && Distinct(IndicatorKeys()) && |IndicatorKeys()| == 4
    ensures Distinct(PeopleKeys(group)) && |PeopleKeys(group)| == 24
  {
    TellApart(BriefKeys(), [18, 11, 14, 16, 18], "cwcpi");
    TellApart(BusinessKeys(), [13, 12, 21, 26], "cfnp");
    TellApart(DimensionKeys(), [7, 14, 17, 16, 13, 13, 8, 11], "meddpicc");
    TellApart(IndicatorKeys(), [18, 13, 8, 18], "dttc");
    var people := PeopleKeys(group);
    forall i, j | 0 <= i < j < 24 ensures people[i] != people[j] { assert people[i][1] != people[j][1]; }
  }

  /** Strings that differ in length or in their first character are distinct. */
  lemma TellApart(keys: seq<string>, sizes: seq<nat>, firsts: string)
    requires |keys| == |sizes| == |firsts|
    requires forall i | 0 <= i < |keys| :: |keys[i]| == sizes[i] > 0 && keys[i][0] == firsts[i]
    requires forall i, j | 0 <= i < j < |keys| :: sizes[i] != sizes[j] || firsts[i] != firsts[j]
    ensures Distinct(keys)
  {
  }

  /** A claim nothing is known about. */
  function UnknownClaim(): Json {
    Obj(map["knowledge_state" := Str("unknown"), "value" := Null, "confidence" := Str("low"),
      "confirmation" := Str("unknown"), "last_confirmed_at" := Null, "evidence_refs" := Arr([])])
  }

  function NotEstablished(): Json { Arr([Str("Not established from authorized evidence.")]) }

  function Area(): Json {
    Obj(map["knowledge" := UnknownClaim(), "missing_information" := NotEstablished(), "points" := Arr([])])
  }

  function Dimension(key: string): Json {
    Obj(map["key" := Str(key), "knowledge" := UnknownClaim(), "missing_information" := NotEstablished(),
      "suggested_discovery" := Arr([])])
  }

  function Indicator(key: string): Json {
    var open := key == "timeline" || key == "customer_sentiment";
    Obj(map["key" := Str(key), "status" := Str(if open then "unknown" else "insufficient_evidence"),
      "reason" := Str("Not established from authorized evidence."), "confidence" := Str("low"),
      "confirmation" := Str("unknown"), "last_confirmed_at" := Null, "evidence_refs" := Arr([])])
  }

  function Reference(): Json {
    Obj(map["source_type" := Str("transcript"), "source_id" := Str("source-A"), "locator" := Null])
  }

  function LocatedReference(): Json {
    Obj(map["source_type" := Str("transcript"), "source_id" := Str("source-B"), "locator" := Str("00:12:30")])
  }

  function Person(key: string): Json {
    Obj(map["key" := Str(key), "name" := Str(key), "title_or_role" := Null, "category" := Str("other"),
      "influence" := Str("unknown"), "engagement" := Str("unknown"), "stance" := Str("unknown"),
      "blocker_status" := Str("unknown"), "blocker_reason" := Null, "recommended_next_step" := Null,
      "evidence_refs" := Arr([Reference(), LocatedReference()]), "missing_information" := Arr([])])
  }

  /** One item a key. */
  function Items(keys: seq<string>, body: string -> Json): seq<Item> {
    seq(|keys|, i requires 0 <= i < |keys| => Item(keys[i], body(keys[i])))
  }

  ghost predicate AlwaysObject(body: string -> Json) { forall k: string :: body(k).Obj? }

  lemma ItemsAreValid(keys: seq<string>, body: string -> Json)
    requires Distinct(keys) && AlwaysObject(body)
    ensures ValidItems(Items(keys, body), |keys|) && |Items(keys, body)| == |keys| == |ByKey(Items(keys, body))|
    ensures AllObjects(ByKey(Items(keys, body))) && forall k | k in ByKey(Items(keys, body)) :: k in keys
  {
    var items := Items(keys, body);
    KeyCount(items);
    ByKeyHolds(items);
    ValidItemsAreObjects(items, |keys|);
    forall k | k in ByKey(items) ensures k in keys {
      var i :| 0 <= i < |items| && items[i] == Item(k, ByKey(items)[k]);
    }
  }

  function People(group: char): seq<Item> { Items(PeopleKeys(group), Person) }

  lemma PeopleAreValid(group: char)
    ensures ValidItems(People(group), 24) && |People(group)| == 24 == |ByKey(People(group))|
    ensures AllObjects(ByKey(People(group)))
    ensures forall k | k in ByKey(People(group)) :: |k| == 2 && k[0] == group
    ensures forall i | 0 <= i < 24 :: People(group)[i].key != GAPS
  {
    KeysAreDistinct(group);
    ItemsAreValid(PeopleKeys(group), Person);
    assert |GAPS| == 16;
    forall i | 0 <= i < 24 ensures People(group)[i].key != GAPS { assert |People(group)[i].key| == 2; }
  }

  function Gaps(missing: seq<Json>): Json {
    Obj(map["missing_information" := Arr(missing), "missing_key_roles" := Arr([])])
  }

  /** A state with 24 stakeholders of the given group, and nothing optional but their gaps. */
  function FullState(group: char, missing: seq<Json>): State {
    State(ByKey(Items(BriefKeys(), _ => UnknownClaim())), ByKey(Items(BusinessKeys(), _ => Area())),
      Items(DimensionKeys(), Dimension), People(group), Gaps(missing), Items(IndicatorKeys(), Indicator), [], [], [])
  }

  lemma GapsShape(missing: seq<Json>)
    ensures Gaps(missing).Obj? && Gaps(missing).fields.Keys == {"missing_information", "missing_key_roles"}
  {
  }

  lemma NothingOptional(most: nat)
    ensures ValidItems([], most)
  {
  }

  lemma FixedSections()
    ensures var brief := ByKey(Items(BriefKeys(), _ => UnknownClaim())); AllObjects(brief) && |brief| == 5
    ensures var business := ByKey(Items(BusinessKeys(), _ => Area())); AllObjects(business) && |business| == 4
    ensures var dimensions := Items(DimensionKeys(), Dimension); ValidItems(dimensions, 8) && |dimensions| == 8
    ensures var indicators := Items(IndicatorKeys(), Indicator); ValidItems(indicators, 4) && |indicators| == 4
  {
    KeysAreDistinct('x');
    hide Items, ByKey, ValidItems, AllObjects, BriefKeys, BusinessKeys, DimensionKeys, IndicatorKeys;
    ItemsAreValid(BriefKeys(), _ => UnknownClaim());
    ItemsAreValid(BusinessKeys(), _ => Area());
    ItemsAreValid(DimensionKeys(), Dimension);
    ItemsAreValid(IndicatorKeys(), Indicator);
  }

  lemma FullStateIsValid(group: char, missing: seq<Json>)
    ensures Valid(FullState(group, missing))
  {
    hide Items, People, ByKey, ValidItems, AllObjects, Gaps;
    FixedSections();
    PeopleAreValid(group);
    GapsShape(missing);
    NothingOptional(12);
    NothingOptional(24);
  }

  /** A leaf, a list of texts, or a list of references. */
  predicate Flat(f: string, x: Json) {
    && !x.Obj? && (x.Arr? ==> (forall i | 0 <= i < |x.items| :: x.items[i].Str?) || AreRefs(x.items))
    && (f == "evidence_refs" && x.Arr? ==> AreRefs(x.items))
  }

  lemma RefsAreDumped(items: seq<Json>)
    requires AreRefs(items)
    ensures forall i | 0 <= i < |items| :: Dumped(items[i])
  {
    forall i | 0 <= i < |items| ensures Dumped(items[i]) {
      forall f | f in items[i].fields ensures DumpedAt(f, items[i].fields[f]) { assert IsRef(items[i]); }
    }
  }

  lemma FlatIsDumped(f: string, x: Json)
    requires Flat(f, x)
    ensures DumpedAt(f, x)
  {
    if x.Arr? && AreRefs(x.items) { RefsAreDumped(x.items); }
  }

  /** Every field flat, or a claim nothing is known about. */
  lemma RecordIsDumped(x: Json)
    requires x.Obj? && forall f | f in x.fields :: Flat(f, x.fields[f]) || x.fields[f] == UnknownClaim()
    ensures Dumped(x)
    decreases x
  {
    forall f | f in x.fields ensures DumpedAt(f, x.fields[f]) {
      if Flat(f, x.fields[f]) { FlatIsDumped(f, x.fields[f]); } else { UnknownIsDumped(); }
    }
  }

  lemma UnknownIsDumped()
    ensures Dumped(UnknownClaim())
  {
    forall f | f in UnknownClaim().fields ensures DumpedAt(f, UnknownClaim().fields[f]) {
      FlatIsDumped(f, UnknownClaim().fields[f]);
    }
  }

  lemma ReferenceIsRef()
    ensures IsRef(Reference()) && IsRef(LocatedReference()) && AreRefs([Reference(), LocatedReference()])
  {
    assert Reference().fields.Keys == {"source_type", "source_id", "locator"};
    assert LocatedReference().fields.Keys == {"source_type", "source_id", "locator"};
  }

  lemma RecordsOfOneClaim(key: string)
    ensures Dumped(Area()) && Dumped(Dimension(key))
  {
    hide UnknownClaim, Dumped;
    RecordIsDumped(Area());
    RecordIsDumped(Dimension(key));
  }

  lemma IndicatorIsDumped(key: string)
    ensures Dumped(Indicator(key))
  {
    hide Dumped;
    RecordIsDumped(Indicator(key));
  }

  lemma PersonIsDumped(key: string)
    ensures Dumped(Person(key))
  {
    ReferenceIsRef();
    hide Dumped, Reference, LocatedReference, IsRef;
    RecordIsDumped(Person(key));
  }

  lemma GapsAreDumped(missing: seq<Json>)
    requires forall i | 0 <= i < |missing| :: missing[i].Str?
    ensures Dumped(Gaps(missing))
  {
    hide Dumped;
    RecordIsDumped(Gaps(missing));
  }

  ghost predicate AlwaysDumped(body: string -> Json) { forall k: string :: body(k).Obj? && Dumped(body(k)) }

  lemma ItemsAreDumped(keys: seq<string>, body: string -> Json)
    requires AlwaysDumped(body)
    ensures AllDumped(ByKey(Items(keys, body)))
  {
    var items := Items(keys, body);
    ByKeyHolds(items);
    hide ByKey, Dumped;
    forall k | k in ByKey(items) ensures ByKey(items)[k].Obj? && Dumped(ByKey(items)[k]) {
      var i :| 0 <= i < |items| && items[i] == Item(k, ByKey(items)[k]);
      assert items[i].body == body(keys[i]);
    }
  }

  lemma BodiesAreDumped()
    ensures AlwaysDumped(_ => UnknownClaim()) && AlwaysDumped(_ => Area()) && AlwaysDumped(Dimension)
    ensures AlwaysDumped(Indicator) && AlwaysDumped(Person)
  {
    UnknownIsDumped();
    RecordsOfOneClaim("");
    hide Dumped;
    forall k: string
      ensures Dumped(Area()) && Dumped(Dimension(k)) && Dumped(Indicator(k)) && Dumped(Person(k))
    {
      RecordsOfOneClaim(k);
      IndicatorIsDumped(k);
      PersonIsDumped(k);
    }
  }

  lemma PeopleAndGapsAreDumped(group: char, missing: seq<Json>)
    requires forall i | 0 <= i < |missing| :: missing[i].Str?
    ensures AllDumped(ByKey(People(group))[GAPS := Gaps(missing)])
  {
    BodiesAreDumped();
    GapsAreDumped(missing);
    ItemsAreDumped(PeopleKeys(group), Person);
    hide ByKey, Dumped, Items, Person;
  }

  /** Every section of a full state is made of dumped models, so the change sets between such states say exactly what
      differs. */
  lemma FullStateIsDumped(group: char, missing: seq<Json>)
    requires forall i | 0 <= i < |missing| :: missing[i].Str?
    ensures forall i | 0 <= i < 8 :: AllDumped(Sections(FullState(group, missing))[i])
  {
    BodiesAreDumped();
    PeopleAndGapsAreDumped(group, missing);
    ItemsAreDumped(BriefKeys(), _ => UnknownClaim());
    ItemsAreDumped(BusinessKeys(), _ => Area());
    ItemsAreDumped(DimensionKeys(), Dimension);
    ItemsAreDumped(IndicatorKeys(), Indicator);
    assert ByKey([]) == map[];
    hide ByKey, Items, People, AlwaysDumped, Dumped;
    NothingIsDumped();
    hide AllDumped;
  }

  lemma NothingIsDumped()
    ensures AllDumped(map[])
  {
  }

  lemma KeysApart()
    ensures ByKey(People('x')).Keys !! ByKey(People('y')).Keys
  {
    PeopleAreValid('x');
    PeopleAreValid('y');
    hide People, ByKey, ValidItems, AllObjects;
    var l, r := ByKey(People('x')), ByKey(People('y'));
    forall k | k in l ensures k !in r { assert k[0] == 'x'; }
  }

  lemma GapsDiffer(m: seq<Json>, n: seq<Json>)
    requires |m| != |n|
    ensures ChangedFields(Gaps(m), Gaps(n)) != {}
  {
    var name := "missing_information";
    var l, r := Canon(Gaps(m)).fields, Canon(Gaps(n)).fields;
    CanonOfObject(Gaps(m));
    CanonOfObject(Gaps(n));
    assert name != "evidence_refs" by { assert name[0] != "evidence_refs"[0]; }
    assert Gaps(m).fields[name] == Arr(m) && Gaps(n).fields[name] == Arr(n) by {
      assert name[8] != "missing_key_roles"[8];
    }
    assert |l[name].items| == |m| && |r[name].items| == |n|;
    assert name in ChangedFields(Gaps(m), Gaps(n));
  }

  function Question(): seq<Json> { [Str("Who signs the order form?")] }

  /** Two valid states with 24 stakeholders each, none in common, and different gaps: 49 changes where 48 are
      declared. */
  lemma FortyNineStakeholderChanges()
    ensures var x, y := FullState('x', []), FullState('y', Question());
            && Valid(x) && Valid(y) && AllObjects(StakeholderMap(x)) && AllObjects(StakeholderMap(y))
            && |Diff(StakeholderMap(x), StakeholderMap(y), Removed)| == 49
  {
    var x, y := FullState('x', []), FullState('y', Question());
    FullStateIsValid('x', []);
    FullStateIsValid('y', Question());
    StakeholderFacts(x);
    StakeholderFacts(y);
    KeysApart();
    GapsDiffer([], Question());
    hide Diff, ChangedFields, People, ByKey, Valid, ValidItems, AllObjects, Gaps, Question;
    PeopleAreValid('x');
    PeopleAreValid('y');
    GapsShape([]);
    GapsShape(Question());
    FortyNine(ByKey(People('x')), ByKey(People('y')), Gaps([]), Gaps(Question()));
  }

  /** Two full maps without a key in common, and different gaps. */
  lemma FortyNine(l: Keyed, r: Keyed, gl: Json, gr: Json)
    requires AllObjects(l) && AllObjects(r) && |l| == 24 == |r| && l.Keys !! r.Keys && GAPS !in l && GAPS !in r
    requires gl.Obj? && gr.Obj? && ChangedFields(gl, gr) != {}
    ensures AllObjects(l[GAPS := gl]) && AllObjects(r[GAPS := gr])
    ensures |Diff(l[GAPS := gl], r[GAPS := gr], Removed)| == 49
  {
    hide Diff, ChangedFields;
    GapsAddOne(l, r, gl, gr);
    DiffSize(l, r, Removed);
  }

  // ---------------------------------------------------------------- evidence manifests

  /** A manifest a stored version can hold: 2 to 51 sources, ids of 8 to 160 characters that stripping leaves
      alone, SHA-256 digests in lower-case hexadecimal. */
  predicate ValidManifest(m: Digests) {
    2 <= |m| <= 51 && forall s | s in m :: ValidId(s.id) && ValidDigest(m[s])
  }

  predicate ValidId(id: string) { 8 <= |id| <= 160 && forall i | 0 <= i < |id| :: '!' <= id[i] <= '~' }

  predicate ValidDigest(digest: string) {
    |digest| == 64 && forall i | 0 <= i < 64 :: '0' <= digest[i] <= '9' || 'a' <= digest[i] <= 'f'
  }

  function Digest(): string { seq(64, _ => 'a') }

  /** The `i`-th of a row of transcripts: "source-A", "source-B" and so on. */
  function Numbered(i: nat): Source
    requires i < 51
  {
    Source(Transcript, "source-" + ['A' + i as char])
  }

  function Transcripts(n: nat): Digests
    requires n <= 51
  {
    if n == 0 then map[] else Transcripts(n - 1)[Numbered(n - 1) := Digest()]
  }

  function Earlier(): Digests {
    map[Source(Transcript, "earlier-a") := Digest(), Source(Transcript, "earlier-b") := Digest()]
  }

  lemma NumberedId(i: nat)
    requires i < 51
    ensures Numbered(i).kind == Transcript && ValidId(Numbered(i).id)
    ensures |Numbered(i).id| == 8 && Numbered(i).id[7] == 'A' + i as char
  {
    assert |"source-"| == 7;
  }

  /** A transcript whose id is below the `n`-th in the row. */
  predicate Below(s: Source, n: nat)
    requires n <= 51
  {
    s.kind == Transcript && ValidId(s.id) && |s.id| == 8 && s.id[7] < 'A' + n as char
  }

  lemma {:induction false} TranscriptsCount(n: nat)
    requires n <= 51
    ensures |Transcripts(n)| == n
    ensures forall s | s in Transcripts(n) :: Below(s, n) && Transcripts(n)[s] == Digest()
  {
    hide Numbered, Digest, ValidId;
    if n > 0 {
      TranscriptsCount(n - 1);
      NumberedId(n - 1);
      assert !Below(Numbered(n - 1), n - 1) && Below(Numbered(n - 1), n);
      forall s | s in Transcripts(n - 1) ensures Below(s, n) { assert Below(s, n - 1); }
    }
  }

  lemma DigestIsValid()
    ensures ValidDigest(Digest())
  {
  }

  lemma TranscriptsAreValid()
    ensures ValidManifest(Transcripts(51)) && |Transcripts(51)| == 51
    ensures forall s | s in Transcripts(51) :: s.kind == Transcript && |s.id| == 8
  {
    hide Transcripts, Digest, ValidId, ValidDigest;
    TranscriptsCount(51);
    DigestIsValid();
  }

  lemma EarlierIsValid()
    ensures ValidManifest(Earlier()) && forall s | s in Earlier() :: |s.id| == 9
  {
    DigestIsValid();
    hide Digest, ValidDigest;
    var a, b := Source(Transcript, "earlier-a"), Source(Transcript, "earlier-b");
    assert a != b by { assert a.id[8] != b.id[8]; }
    assert Earlier().Keys == {a, b};
    assert ValidId(a.id) && ValidId(b.id);
  }

  /** All 51 sources of a manifest are transcripts its parent did not have: 51 listed changes where 50 are
      declared. */
  lemma FiftyOneEvidenceChanges()
    ensures ValidManifest(Earlier()) && ValidManifest(Transcripts(51))
    ensures |ListedChanges(Earlier(), Transcripts(51))| > 50
  {
    EarlierIsValid();
    TranscriptsAreValid();
    hide Earlier, Transcripts, ValidManifest, ListedChanges;
    AllNewOverflows(Earlier(), Transcripts(51));
  }

  lemma AllNewOverflows(parent: Digests, child: Digests)
    requires |child| == 51 && forall s | s in child :: s.kind == Transcript && s !in parent
    ensures |ListedChanges(parent, child)| > 50
  {
    EvidenceOverflowsExactlyWhen(parent, child);
  }

  lemma OneMoreSource(m: Digests, s: Source, digest: string)
    requires s !in m && 1 <= |m| <= 50 && ValidId(s.id) && ValidDigest(digest)
    requires forall x | x in m :: ValidId(x.id) && ValidDigest(m[x])
    ensures ValidManifest(m[s := digest])
  {
    assert m[s := digest].Keys == m.Keys + {s};
    hide ValidId, ValidDigest;
  }

  lemma LastSourceDropped(m: Digests, s: Source, digest: string)
    requires s !in m
    ensures EvidenceChanges(m[s := digest], m) == map[] && Patched(m[s := digest], m) != m
  {
    assert s in Patched(m[s := digest], m);
  }

  lemma ThreeSources(s: Source, a: Source, b: Source, digest: string)
    ensures map[s := digest, a := digest, b := digest] == map[a := digest][b := digest][s := digest]
    ensures map[a := digest, b := digest] == map[a := digest][b := digest]
  {
  }

  /** A source the child drops leaves no trace in the evidence part. */
  lemma DroppedSourceUnreported(s: Source, a: Source, b: Source, digest: string)
    requires ValidId(s.id) && ValidId(a.id) && ValidId(b.id) && ValidDigest(digest)
    requires s != a && s != b && a != b
    ensures var parent, child := map[s := digest, a := digest, b := digest], map[a := digest, b := digest];
            && ValidManifest(parent) && ValidManifest(child)
            && EvidenceChanges(parent, child) == map[] && Patched(parent, child) != child
  {
    ThreeSources(s, a, b, digest);
    var one := map[a := digest];
    hide ValidId, ValidDigest, ValidManifest, EvidenceChanges, Patched;
    assert one.Keys == {a} && |one| == 1;
    OneMoreSource(one, b, digest);
    var two := one[b := digest];
    assert two.Keys == {a, b} && |two| == 2;
    OneMoreSource(two, s, digest);
    LastSourceDropped(two, s, digest);
  }
}
