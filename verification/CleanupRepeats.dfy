/** What sweeps preserve, and what repeating an interrupted one achieves. */
module CleanupRepeats {
  import opened Cleanup
  import opened Custody
  import opened Host
  import opened Options
  import opened Recovery

  /** What one turn does to a candidate, with the guards written out.  A journal file that is unsafe or younger than the
      cutoff protects everything; a record that loads is finalized; and what is there without one is removed exactly
      when there is any, all of it safe and old, and runsc reports the container absent. */
  lemma TurnExactly(s: Slot, cutoff: int, a: Answer)
    requires Sound(s)
    ensures var x, d := Handled(s, cutoff, a), s.disk;
            var protected := (s.broken || d.journal.Some?) && (!s.journalSafe || s.journalTime > cutoff);
            && (protected ==> x == s)
            && (!protected && d.journal.Some? ==>
                  x == s.(disk := After(FinalizeProgram(d.journal.value, a.world), d).disk, stamps := a.stamps))
            && (!protected && d.journal.None? ==>
                  var there := set p | p in {State, Bundle, Staging} && p in d.fs;
                  if there != {} && a.listing == Absent
                     && forall p | p in there :: p !in s.unsafe && (p in s.stamps ==> s.stamps[p] <= cutoff)
                  then x == s.(disk := d.(fs := d.fs - (Tree(State) + Tree(Bundle) + Tree(Staging))), broken := false,
                    stamps := a.stamps)
                  else x == s)
  {
    var ops := Calls(s, cutoff, a);
    assert ops[..|ops|] == ops;
    if s.disk.journal.None? && Reclaimable(s, cutoff, a) && !KeepsAway(s, cutoff) { RemovalsRemove(s, a); }
    TurnGuards(s, cutoff, a);
  }

  lemma TurnGuards(s: Slot, cutoff: int, a: Answer)
    ensures var there := set p | p in {State, Bundle, Staging} && p in s.disk.fs;
            Reclaimable(s, cutoff, a) <==>
              && there != {} && a.listing == Absent
              && forall p | p in there :: p !in s.unsafe && (p in s.stamps ==> s.stamps[p] <= cutoff)
  {
    var there := set p | p in {State, Bundle, Staging} && p in s.disk.fs;
    assert forall p :: p in there <==> p in RESIDUE && p in s.disk.fs;
    if there != {} {
      var p :| p in there;
      assert p in RESIDUE && p in s.disk.fs;
    }
    if HasResidue(s) {
      var p :| p in RESIDUE && p in s.disk.fs;
      assert p in there;
    }
    if Reclaimable(s, cutoff, a) {
      forall p | p in there ensures p !in s.unsafe && (p in s.stamps ==> s.stamps[p] <= cutoff) {
        assert !Newer(s, p, cutoff);
      }
    }
  }

  lemma RemovalsRemove(s: Slot, a: Answer)
    requires s.disk.journal.None?
    ensures After(Removals(s, a), s.disk)
         == Attempt(s.disk.(fs := s.disk.fs - (Tree(State) + Tree(Bundle) + Tree(Staging))), true)
  {
    ScrubRemoves([Bundle, Staging, State], a.world.parts, s.disk);
    AfterConcat(Scrub([Bundle, Staging, State], a.world.parts), if HasJournal(s) then [Forget] else [], s.disk);
    if HasJournal(s) { AfterOne(Forget, s.disk.(fs := s.disk.fs - Trees([Bundle, Staging, State]))); }
    TreesOfThree();
  }

  lemma TreesOfThree()
    ensures Trees([Bundle, Staging, State]) == Tree(State) + Tree(Bundle) + Tree(Staging)
  {
    assert [Bundle, Staging, State][..2] == [Bundle, Staging];
    TreesOfTwo(Bundle, Staging);
  }

  /** Residue without a record that loads goes only when it is safe, old, and runsc reports the container absent. */
  lemma ResidueGoesOnlyWhenAbsent(s: Slot, cutoff: int, a: Answer, k: nat)
    requires s.disk.journal.None? && Outcome(s, cutoff, a, k) != s
    ensures a.listing == Absent && !UnsafeResidue(s) && (forall p | p in RESIDUE :: !Newer(s, p, cutoff))
    ensures Reclaimable(s, cutoff, a)
    ensures s.broken ==> s.journalSafe && s.journalTime <= cutoff
  {
  }

  /** A candidate with some residue newer than the cutoff is left alone, whatever the answers, exactly when it has no
      record that loads from a safe journal file older than the cutoff. */
  lemma NewerResidueLeftAloneExactlyWhen(s: Slot, cutoff: int, p: Path)
    requires p in RESIDUE && Newer(s, p, cutoff)
    ensures (forall a :: Calls(s, cutoff, a) == [])
      <==> s.disk.journal.None? || !s.journalSafe || s.journalTime > cutoff
  {
    if !(s.disk.journal.None? || !s.journalSafe || s.journalTime > cutoff) {
      var a := Answer(Absent, World(true, true, map[]), map[]);
      assert Calls(s, cutoff, a) == FinalizeProgram(s.disk.journal.value, a.world);
      assert |FinalizeProgram(s.disk.journal.value, a.world)| > 0;
    }
  }

  /** A running attempt whose record is from time 0 and whose output was written at time 100. */
  const LIVE :=
    Slot(Disk(map[Staging := EMPTY, StagedOutput := Dir(map["report" := File([1])], 7)],
              Some(Record(Running, Discard, false, Some(Identity(11, 11, 4)))), false),
         false, 0, true, map[Staging := 100], {})

  /** Such an attempt is finalized, for all that its residue is newer than the cutoff. */
  lemma LiveAttemptIsFinalized(a: Answer)
    requires a.world.processGone && a.world.containerGone
    ensures Sound(LIVE) && Newer(LIVE, Staging, 50)
    ensures Handled(LIVE, 50, a).disk == Disk(map[Output := EMPTY], None, false)
  {
    FinalizeOutcome(LIVE.disk, a.world);
    var ops := FinalizeProgram(LIVE.disk.journal.value, a.world);
    assert ops[..|ops|] == ops;
  }

  // ---------------------------------------------------------------- where a candidate is headed

  const CUSTODY: set<Path> := Tree(Bundle) + Tree(Staging) + Tree(State)

  /** What handling it to the end would leave: the publication, or the residue gone. */
  function Ideal(s: Slot): Disk {
    if s.disk.journal.Some? then Disk(map[Output := Published(s.disk)], None, false)
    else s.disk.(fs := s.disk.fs - CUSTODY)
  }

  predicate Gone(x: Slot, s: Slot) { x.disk == Ideal(s) && !x.broken }

  /** No sweep can end it: the journal file is unsafe; or the record loads and finalize must refuse the staged
      output or the occupied output path; or residue is unsafe; or a broken journal stands alone. */
  predicate Stuck(x: Slot) {
    || (HasJournal(x) && !x.journalSafe)
    || (x.disk.journal.Some? &&
          (!OutputPlain(x.disk.fs) || (Output in x.disk.fs && !Early(x.disk.journal.value.phase))))
    || (x.disk.journal.None? && (UnsafeResidue(x) || (x.broken && !HasResidue(x))))
  }

  /** Everything is old by now, the processes and the container are gone, and runsc says so. */
  predicate Favourable(x: Slot, cutoff: int, a: Answer) {
    && x.journalTime <= cutoff && (forall p | p in RESIDUE :: !Newer(x, p, cutoff))
    && a.listing == Absent && a.world.processGone && a.world.containerGone
  }

  /** After any number of sweeps: done, or still headed for the same end, or stuck. */
  predicate Headed(x: Slot, s: Slot) { Gone(x, s) || (Ideal(x) == Ideal(s) && x.broken == s.broken) || Stuck(x) }

  lemma SoundIsHeld(s: Slot)
    requires Sound(s) && s.disk.journal.Some?
    ensures Held(s.disk)
  {
  }

  // ---------------------------------------------------------------- finalize

  /** A finalize that cannot complete never gets beyond what a retry can resume, however far it is let run. */
  lemma FailedIsResumable(d: Disk, w: World, n: nat)
    requires Held(d) && !Completes(d, w) && n <= |FinalizeProgram(d.journal.value, w)|
    ensures Resumable(d, CrashedAt(FinalizeProgram(d.journal.value, w), d, n))
  {
    var r := d.journal.value;
    var pre, close := Reconcile(r, w), Close(w);
    if n <= |pre| {
      CutBeforePublication(d, w, n);
    } else {
      CutBeforePublication(d, w, |pre|);
      var settle := [Settle(Early(r.phase))];
      CrashInConcat(pre, settle + close, d, |pre|);
      CrashInConcat(pre, settle + close, d, n);
      assert pre[..|pre|] == pre;
      var mid := After(pre, d);
      if mid.ok {
        BeforeSettle(d, w);
        CrashInConcat(settle, close, mid.disk, n - |pre|);
        AfterOne(settle[0], mid.disk);
        assert !After(settle, mid.disk).ok && After(settle, mid.disk).disk == mid.disk;
      }
    }
  }

  /** The staged output is exactly this node. */
  predicate StagedIs(x: Disk, node: Node) {
    StagedOutput in x.fs && x.fs[StagedOutput] == node && HasParent(StagedOutput, x.fs)
  }

  lemma HeadKeepsStaged(r: Record, w: World, d: Disk, node: Node, n: nat)
    requires StagedIs(d, node) && n <= |Verify(r, w) + [EnsureDir(Staging)]|
    ensures StagedIs(CrashedAt(Verify(r, w) + [EnsureDir(Staging)], d, n), node)
  {
    var head := Verify(r, w) + [EnsureDir(Staging)];
    ScrubCalls([State], w.parts);
    forall i, x: Disk | 0 <= i < |head| && StagedIs(x, node) ensures StagedIs(Exec(head[i], x).disk, node) { }
    KeptAtEveryCrash(head, d, n, x => StagedIs(x, node));
  }

  /** A staged output that is not plain is never touched. */
  lemma NonPlainStays(d: Disk, w: World, n: nat)
    requires Held(d) && !OutputPlain(d.fs) && n <= |FinalizeProgram(d.journal.value, w)|
    ensures !OutputPlain(CrashedAt(FinalizeProgram(d.journal.value, w), d, n).fs)
  {
    var r, node := d.journal.value, d.fs[StagedOutput];
    var head := Verify(r, w) + [EnsureDir(Staging)];
    var rest := FinalizeProgram(r, w)[|head| + 1..];
    var check := [CheckPlain(StagedOutput)];
    ProgramHead(r, w);
    assert FinalizeProgram(r, w) == head + (check + rest);
    HeadKeepsStaged(r, w, d, node, Least(n, |head|));
    CrashInConcat(head, check + rest, d, n);
    assert head[..|head|] == head;
    hide FinalizeProgram, Verify, After, CrashedAt;
    if n > |head| {
      WholeProgram(head, d);
      var mid := After(head, d);
      if mid.ok {
        CrashInConcat(check, rest, mid.disk, n - |head|);
        AfterOne(check[0], mid.disk);
      }
    }
  }

  lemma ProgramHead(r: Record, w: World)
    ensures var head := Verify(r, w) + [EnsureDir(Staging)];
            var p := FinalizeProgram(r, w);
            |p| > |head| && p[..|head|] == head && p[|head|] == CheckPlain(StagedOutput)
  {
    var v := Verify(r, w);
    assert FinalizeProgram(r, w) == v + FinalizeProgram(r, w)[|v|..];
    assert Prepare(r, w)[..2] == [EnsureDir(Staging), CheckPlain(StagedOutput)];
  }

  lemma FinalizeHeads(s: Slot, cutoff: int, a: Answer, k: nat)
    requires Sound(s) && s.disk.journal.Some? && !KeepsAway(s, cutoff)
    ensures Sound(Outcome(s, cutoff, a, k)) && Headed(Outcome(s, cutoff, a, k), s)
    ensures Stuck(s) ==> Stuck(Outcome(s, cutoff, a, k))
  {
    var d, w := s.disk, a.world;
    var ops := FinalizeProgram(d.journal.value, w);
    var n := Least(k, |ops|);
    SoundIsHeld(s);
    assert |ops| > 0;
    var x := CrashedAt(ops, d, n);
    assert Outcome(s, cutoff, a, k).disk == x;
    hide FinalizeProgram, CrashedAt, After, Exec;
    if !Completes(d, w) {
      FailedIsResumable(d, w, n);
      if !OutputPlain(d.fs) { NonPlainStays(d, w, n); }
      ResumableHeads(s, x);
    } else if n <= SettleIndex(d.journal.value, w) {
      CutBeforePublication(d, w, n);
      ResumableHeads(s, x);
    } else if n < |ops| {
      CutAfterPublication(d, w, n);
    } else {
      FinalizeOutcome(d, w);
      WholeProgram(ops, d);
    }
  }

  lemma WholeProgram(ops: seq<Op>, d: Disk)
    ensures CrashedAt(ops, d, |ops|) == After(ops, d).disk
  {
    assert ops[..|ops|] == ops;
  }

  lemma ResumableHeads(s: Slot, x: Disk)
    requires Sound(s) && s.disk.journal.Some? && Resumable(s.disk, x)
    ensures Ideal(s.(disk := x)) == Ideal(s)
    ensures (forall p | p in x.fs :: HasParent(p, x.fs)) && x.journal == s.disk.journal && HeldShape(x)
  {
  }

  // ---------------------------------------------------------------- reclaim

  predicate Removes(op: Op) { op == Forget || ((op.Thin? || op.Remove?) && op.p in RESIDUE) }

  lemma RemovalCalls(s: Slot, a: Answer)
    ensures forall i | 0 <= i < |Removals(s, a)| :: Removes(Removals(s, a)[i])
  {
    ScrubCalls([Bundle, Staging, State], a.world.parts);
  }

  /** What a cut reclaim cannot spoil. */
  predicate Shrunk(x: Disk, d: Disk) {
    && x.fs.Keys <= d.fs.Keys && x.fs - CUSTODY == d.fs - CUSTODY && x.journal.None? && x.scratch == d.scratch
    && forall p | p in x.fs :: HasParent(p, x.fs)
  }

  lemma RemovalShrinks(op: Op, x: Disk, d: Disk)
    requires Removes(op) && Shrunk(x, d)
    ensures Shrunk(Exec(op, x).disk, d)
  {
    var y := Exec(op, x).disk;
    assert forall q | q in y.fs :: q in x.fs;
    assert forall q | q in y.fs && q !in CUSTODY :: y.fs[q] == x.fs[q];
    assert forall q | q in x.fs && q !in CUSTODY :: q in y.fs;
    assert y.fs - CUSTODY == x.fs - CUSTODY;
    forall q | q in y.fs ensures HasParent(q, y.fs) { assert HasParent(q, x.fs); }
  }

  lemma ReclaimCut(s: Slot, a: Answer, n: nat)
    requires Sound(s) && s.disk.journal.None? && n <= |Removals(s, a)|
    ensures Shrunk(CrashedAt(Removals(s, a), s.disk, n), s.disk)
    ensures n == |Removals(s, a)| ==> CrashedAt(Removals(s, a), s.disk, n) == s.disk.(fs := s.disk.fs - CUSTODY)
  {
    var ops, d := Removals(s, a), s.disk;
    RemovalCalls(s, a);
    forall i, x: Disk | 0 <= i < |ops| && Shrunk(x, d) ensures Shrunk(Exec(ops[i], x).disk, d) {
      RemovalShrinks(ops[i], x, d);
    }
    KeptAtEveryCrash(ops, d, n, x => Shrunk(x, d));
    if n == |ops| { WholeReclaim(s, a); }
  }

  lemma WholeReclaim(s: Slot, a: Answer)
    requires s.disk.journal.None?
    ensures CrashedAt(Removals(s, a), s.disk, |Removals(s, a)|) == s.disk.(fs := s.disk.fs - CUSTODY)
  {
    var ps, parts := [Bundle, Staging, State], a.world.parts;
    var scrub, last := Scrub(ps, parts), if HasJournal(s) then [Forget] else [];
    WholeProgram(Removals(s, a), s.disk);
    ScrubRemoves(ps, parts, s.disk);
    assert ps[..2] == [Bundle, Staging];
    TreesOfTwo(Bundle, Staging);
    assert Trees(ps) == CUSTODY;
    AfterConcat(scrub, last, s.disk);
    var mid := After(scrub, s.disk).disk;
    if HasJournal(s) { AfterOne(Forget, mid); }
  }

  lemma NoResidueNoCustody(x: Slot)
    requires Sound(x) && !HasResidue(x)
    ensures x.disk.fs - CUSTODY == x.disk.fs
  {
    forall p | p in x.disk.fs ensures p !in CUSTODY {
      assert HasParent(p, x.disk.fs);
      assert State in RESIDUE && Bundle in RESIDUE && Staging in RESIDUE;
    }
  }

  lemma ReclaimHeads(s: Slot, cutoff: int, a: Answer, k: nat)
    requires Sound(s) && s.disk.journal.None?
    ensures Sound(Outcome(s, cutoff, a, k)) && Headed(Outcome(s, cutoff, a, k), s)
    ensures Stuck(s) ==> Stuck(Outcome(s, cutoff, a, k))
  {
    var ops := Calls(s, cutoff, a);
    if ops != [] {
      assert ops == Removals(s, a);
      var n := Least(k, |ops|);
      ReclaimCut(s, a, n);
      var x := Outcome(s, cutoff, a, k);
      assert x.disk == CrashedAt(ops, s.disk, n);
      assert !Stuck(s);
    }
  }

  /** Whatever one sweep does to a candidate, and wherever it is killed: the candidate is done, or headed where it
      was, or stuck; and what is stuck stays so. */
  lemma OutcomeHeads(s: Slot, cutoff: int, a: Answer, k: nat)
    requires Sound(s)
    ensures Sound(Outcome(s, cutoff, a, k)) && Headed(Outcome(s, cutoff, a, k), s)
    ensures Stuck(s) ==> Stuck(Outcome(s, cutoff, a, k))
  {
    if s.disk.journal.None? { ReclaimHeads(s, cutoff, a, k); }
    else if !KeepsAway(s, cutoff) { FinalizeHeads(s, cutoff, a, k); }
  }

  lemma StuckIsNotGone(x: Slot, s: Slot)
    requires Sound(x) && Stuck(x)
    ensures !Gone(x, s)
  {
    if x.disk.journal.None? && !x.broken {
      assert UnsafeResidue(x);
      var p :| p in RESIDUE && p in x.disk.fs && p in x.unsafe;
      assert p in CUSTODY && p != Output;
    }
  }

  lemma GoneStaysGone(x: Slot, s: Slot, cutoff: int, a: Answer)
    requires Sound(x) && Gone(x, s)
    ensures Handled(x, cutoff, a) == x
  {
    assert x.disk.journal.None?;
    assert !HasResidue(x);
  }

  /** A whole turn under favourable answers ends every candidate that is not stuck. */
  lemma FavourableEnds(x: Slot, cutoff: int, a: Answer)
    requires Sound(x) && !Stuck(x) && Favourable(x, cutoff, a)
    ensures Gone(Handled(x, cutoff, a), x)
  {
    if x.disk.journal.Some? {
      SoundIsHeld(x);
      var ops := FinalizeProgram(x.disk.journal.value, a.world);
      assert Calls(x, cutoff, a) == ops && |ops| > 0;
      hide FinalizeProgram;
      FinalizeOutcome(x.disk, a.world);
      WholeProgram(ops, x.disk);
    } else if HasResidue(x) {
      assert Calls(x, cutoff, a) == Removals(x, a);
      ReclaimCut(x, a, |Removals(x, a)|);
    } else {
      NoResidueNoCustody(x);
    }
  }

  lemma SecondTurn(s: Slot, x: Slot, cutoff: int, a: Answer)
    requires Sound(x) && Headed(x, s) && Favourable(x, cutoff, a)
    ensures Gone(Handled(x, cutoff, a), s) <==> Gone(x, s) || !Stuck(x)
  {
    hide Outcome, Calls, Favourable, Sound, Stuck, Ideal;
    if Gone(x, s) {
      GoneStaysGone(x, s, cutoff, a);
    } else if Stuck(x) {
      OutcomeHeads(x, cutoff, a, |Calls(x, cutoff, a)|);
      StuckIsNotGone(Handled(x, cutoff, a), s);
    } else {
      FavourableEnds(x, cutoff, a);
    }
  }

  /** Interrupted sweeps can be repeated: after a sweep killed anywhere, a whole one under favourable answers ends
      exactly those candidates as an uninterrupted one would have that are not stuck by then. */
  lemma InterruptedSweepRepeats(before: map<string, Slot>, mid: map<string, Slot>, after: map<string, Slot>,
                                candidates: seq<string>, cutoff: int, answers: map<string, Answer>, stop: nat, cut: nat,
                                cutoff': int, answers': map<string, Answer>, i: nat)
    requires Swept(before, mid, candidates, cutoff, answers, stop, cut)
    requires Swept(mid, after, candidates, cutoff', answers', |candidates|, 0)
    requires i < |candidates| && candidates[i] in before && Sound(before[candidates[i]])
    requires candidates[i] in mid && candidates[i] in answers'
    requires var x, a := mid[candidates[i]], answers'[candidates[i]];
             && x.journalTime <= cutoff' && a.listing == Absent && a.world.processGone && a.world.containerGone
             && forall p | p in {State, Bundle, Staging} && p in x.stamps :: p in x.disk.fs ==> x.stamps[p] <= cutoff'
    ensures var s, x, y := before[candidates[i]], mid[candidates[i]], after[candidates[i]];
            Gone(y, s) <==> Gone(x, s) || !Stuck(x)
  {
    var id := candidates[i];
    var s, x := before[id], mid[id];
    assert Favourable(x, cutoff', answers'[id]);
    hide Outcome, Calls, Favourable, Sound, Stuck, Gone, Ideal;
    if i <= stop {
      assert id in answers;
      OutcomeHeads(s, cutoff, answers[id], if i < stop then |Calls(s, cutoff, answers[id])| else cut);
    }
    SecondTurn(s, x, cutoff', answers'[id]);
  }

  /** Sweeps act one after the other. */
  lemma AfterOneMore(s: Slot, sweeps: seq<(int, Answer, nat)>, cutoff: int, a: Answer, k: nat)
    ensures AfterSweeps(s, sweeps + [(cutoff, a, k)]) == Outcome(AfterSweeps(s, sweeps), cutoff, a, k)
  {
    hide Outcome;
    assert (sweeps + [(cutoff, a, k)])[..|sweeps|] == sweeps;
  }

  /** What is stuck is stuck for ever: no sequence of sweeps, killed or not, ends it. */
  lemma {:induction false} StuckForEver(s: Slot, sweeps: seq<(int, Answer, nat)>)
    requires Sound(s) && Stuck(s)
    ensures var x := AfterSweeps(s, sweeps); Sound(x) && Stuck(x) && !Gone(x, s)
  {
    hide Outcome, Sound, Stuck, Gone;
    if sweeps != [] {
      var (cutoff, a, k) := sweeps[|sweeps| - 1];
      StuckForEver(s, sweeps[..|sweeps| - 1]);
      OutcomeHeads(AfterSweeps(s, sweeps[..|sweeps| - 1]), cutoff, a, k);
    }
    StuckIsNotGone(AfterSweeps(s, sweeps), s);
  }

  /** One candidate through any number of sweeps. */
  function AfterSweeps(s: Slot, sweeps: seq<(int, Answer, nat)>): Slot {
    if sweeps == [] then s
    else
      var (cutoff, a, k) := sweeps[|sweeps| - 1];
      Outcome(AfterSweeps(s, sweeps[..|sweeps| - 1]), cutoff, a, k)
  }

  /** Through any number of sweeps, killed or not, a candidate without a record that loads keeps everything for as
      long as no sweep hears from runsc that its container is absent while all its residue is safe and old. */
  lemma {:induction false} ResidueStaysUntilAbsent(s: Slot, sweeps: seq<(int, Answer, nat)>)
    requires s.disk.journal.None?
    requires forall i | 0 <= i < |sweeps| :: !Reclaimable(s, sweeps[i].0, sweeps[i].1)
    ensures AfterSweeps(s, sweeps) == s
  {
    if sweeps != [] {
      var (cutoff, a, k) := sweeps[|sweeps| - 1];
      ResidueStaysUntilAbsent(s, sweeps[..|sweeps| - 1]);
      if Outcome(s, cutoff, a, k) != s { ResidueGoesOnlyWhenAbsent(s, cutoff, a, k); }
    }
  }

  /** The smallest reclaim that strands a journal: an unreadable one, an empty state directory, and a kill before the
      last of its seven calls. */
  lemma StrandedJournal(a: Answer)
    requires a.listing == Absent
    ensures var s := Slot(Disk(map[State := EMPTY], None, false), true, 0, true, map[State := 0], {});
            && Sound(s) && !Stuck(s) && |Calls(s, 0, a)| == 7
            && Outcome(s, 0, a, 6).disk == Disk(map[], None, false) && Stuck(Outcome(s, 0, a, 6))
  {
    var s := Slot(Disk(map[State := EMPTY], None, false), true, 0, true, map[State := 0], {});
    assert State in RESIDUE && HasResidue(s);
    var ps := [Bundle, Staging, State];
    var scrub := Scrub(ps, a.world.parts);
    assert Calls(s, 0, a) == scrub + [Forget];
    CrashInConcat(scrub, [Forget], s.disk, 6);
    WholeProgram(scrub, s.disk);
    ScrubRemoves(ps, a.world.parts, s.disk);
    assert ps[..2] == [Bundle, Staging];
    TreesOfTwo(Bundle, Staging);
    assert s.disk.fs - Trees(ps) == map[];
  }
}
