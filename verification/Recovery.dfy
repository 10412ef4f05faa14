/** What survives crashes: every cut of `run` is recovered by one finalize, every cut of finalize is
    either resumable or already published, and no sequence of cuts loses or repeats a publication. */
module Recovery {
  import opened Custody
  import opened Host
  import opened Options

  function SettleIndex(r: Record, w: World): nat { |Reconcile(r, w)| }

  /** A cut before publication: the retry, under any answers that let it verify, completes with the result
      the uncut finalize would have had. */
  lemma CutBeforePublication(d: Disk, w: World, k: nat)
    requires Held(d) && k <= SettleIndex(d.journal.value, w)
    ensures Resumable(d, CrashedAt(FinalizeProgram(d.journal.value, w), d, k))
  {
    var r := d.journal.value;
    CrashInConcat(Reconcile(r, w), [Settle(Early(r.phase))] + Close(w), d, k);
    ReconcileCalls(r, w);
    forall i, x: Disk | 0 <= i < |Reconcile(r, w)| && Resumable(d, x)
      ensures Resumable(d, Exec(Reconcile(r, w)[i], x).disk)
    {
      CallKeepsResumable(Reconcile(r, w)[i], d, x);
    }
    KeptAtEveryCrash(Reconcile(r, w), d, k, x => Resumable(d, x));
  }

  /** Published but not yet forgotten. */
  ghost predicate Closing(x: Disk, r: Record, tree: Node) {
    && Held(x) && x.journal == Some(r)
    && Output in x.fs && x.fs[Output] == tree
  }

  lemma ClosingCall(op: Op, x: Disk, r: Record, tree: Node)
    requires Closing(x, r, tree)
    requires op == DropScratch || ((op.Thin? || op.Remove?) && op.p in {StagedOutput, Staging})
    ensures Closing(Exec(op, x).disk, r, tree)
  {
  }

  lemma CutInClose(r: Record, w: World, d: Disk, k: nat, tree: Node)
    requires Closing(d, r, tree) && k < |Close(w)|
    ensures Closing(CrashedAt(Close(w), d, k), r, tree)
  {
    var init := Scrub([StagedOutput, Staging], w.parts) + [DropScratch];
    ScrubCalls([StagedOutput, Staging], w.parts);
    assert Close(w) == init + [Forget];
    CrashInConcat(init, [Forget], d, k);
    forall i, x: Disk | 0 <= i < |init| && Closing(x, r, tree)
      ensures Closing(Exec(init[i], x).disk, r, tree)
    {
      ClosingCall(init[i], x, r, tree);
    }
    KeptAtEveryCrash(init, d, k, x => Closing(x, r, tree));
  }

  lemma PublishedStays(d: Disk, w: World, k: nat)
    requires Held(d) && Completes(d, w)
    requires SettleIndex(d.journal.value, w) < k < |FinalizeProgram(d.journal.value, w)|
    ensures Closing(CrashedAt(FinalizeProgram(d.journal.value, w), d, k), d.journal.value, Published(d))
  {
    var r := d.journal.value;
    BeforeSettle(d, w);
    SettleOccupies(d, After(Reconcile(r, w), d).disk);
    hide Reconcile, Close, Held, Completes, Published, Closing, Exec;
    var settle, d3 := [Settle(Early(r.phase))], After(Reconcile(r, w), d).disk;
    CrashInConcat(Reconcile(r, w), settle + Close(w), d, k);
    var j := k - |Reconcile(r, w)|;
    CrashInConcat(settle, Close(w), d3, j);
    AfterOne(settle[0], d3);
    CutInClose(r, w, Exec(settle[0], d3).disk, j - 1, Published(d));
  }

  lemma SettleOccupies(d: Disk, x: Disk)
    requires d.journal.Some? && Reconciled(d, Attempt(x, true)) && (Output in d.fs ==> Early(d.journal.value.phase))
    ensures var a := Exec(Settle(Early(d.journal.value.phase)), x);
            a.ok && Closing(a.disk, d.journal.value, Published(d))
  {
    hide Published;
  }

  /** A cut after publication: the published tree stays, and the journal is still there to retry from.
      In a late phase no retry ever completes while that tree is in place, whatever the answers. */
  lemma CutAfterPublication(d: Disk, w: World, k: nat)
    requires Held(d) && Completes(d, w)
    requires SettleIndex(d.journal.value, w) < k < |FinalizeProgram(d.journal.value, w)|
    ensures var x := CrashedAt(FinalizeProgram(d.journal.value, w), d, k);
            && Closing(x, d.journal.value, Published(d))
            && forall w2: World ::
                 After(FinalizeProgram(x.journal.value, w2), x).ok
                 <==> Early(d.journal.value.phase) && Completes(x, w2)
  {
    PublishedStays(d, w, k);
    hide FinalizeProgram, CrashedAt, After, Published;
    var x := CrashedAt(FinalizeProgram(d.journal.value, w), d, k);
    assert Output in x.fs && Held(x) && x.journal == d.journal;
    forall w2: World
      ensures After(FinalizeProgram(x.journal.value, w2), x).ok <==> Early(d.journal.value.phase) && Completes(x, w2)
    {
      FinalizeOutcome(x, w2);
    }
  }

  // ---------------------------------------------------------------- run cut short

  function JournalAt(pc: nat, job: Job, before: Option<Record>): Option<Record> {
    if pc < 2 then before
    else if pc < 8 then Some(Record(Prepared, Discard, job.hasProxy, None))
    else if pc < 11 then Some(Record(InputSealed, Discard, job.hasProxy, None))
    else if pc < 23 && (pc < 18 || !job.hasProxy) then Some(Record(OutputSealed, Discard, job.hasProxy, None))
    else if pc < 23 then Some(Record(ProxySealed, Discard, job.hasProxy, None))
    else if pc < 25 then Some(Record(Configured, Discard, job.hasProxy, None))
    else if pc < 29 then Some(Record(Running, Discard, job.hasProxy, Some(job.runner)))
    else if job.exitCode == 0 then Some(Record(RunFinished, Restore, job.hasProxy, Some(job.runner)))
    else Some(Record(RunFailed, Discard, job.hasProxy, Some(job.runner)))
  }

  /** Where everything is after `pc` calls of `run`. */
  ghost predicate RunAt(pc: nat, job: Job, d0: Disk, d: Disk)
    requires Admissible(job, d0)
  {
    && d.journal == JournalAt(pc, job, d0.journal)
    && (Staging in d.fs <==> pc >= 3) && (pc >= 3 ==> d.fs[Staging] == EMPTY)
    && (Bundle in d.fs <==> pc >= 4) && (pc >= 4 ==> d.fs[Bundle] == EMPTY)
    && (State in d.fs <==> pc >= 5)
    && (Input in d.fs <==> pc < 6) && (pc < 6 ==> d.fs[Input] == d0.fs[Input])
    && (StagedInput in d.fs <==> pc >= 6) && (pc >= 6 ==> d.fs[StagedInput] == d0.fs[Input])
    && (Output in d.fs <==> pc < 9) && (pc < 9 ==> d.fs[Output] == d0.fs[Output])
    && (StagedOutput in d.fs <==> pc >= 9)
    && (pc >= 9 ==> d.fs[StagedOutput] == if pc < 26 then d0.fs[Output]
                                          else Dir(if pc == 26 then job.partial else job.written, job.inode))
    && (Proxy in d.fs <==> Proxy in d0.fs && !(job.hasProxy && pc >= 15))
    && (Proxy in d.fs ==> d.fs[Proxy] == d0.fs[Proxy])
    && (StagedProxy in d.fs <==> job.hasProxy && pc >= 15)
    && (StagedProxy in d.fs ==> d.fs[StagedProxy] == d0.fs[Proxy])
    && (JobFile in d.fs <==> pc >= 19) && (ConfigFile in d.fs <==> pc >= 21)
  }

  /** A filesystem: whatever is there has its parent. */
  predicate Rooted(fs: Fs) { forall p | p in fs :: HasParent(p, fs) }

  /** A fresh attempt: admissible, with nothing of an older attempt in the custody roots. */
  ghost predicate Fresh(job: Job, d: Disk) {
    && Admissible(job, d)
    && Rooted(d.fs)
    && (!job.hasProxy ==> Proxy !in d.fs)
    && d.fs[Output].inode == job.inode != EMPTY.inode
  }

  /** The call at `pc` raises: one of the two tree checks, or the deadline. */
  predicate Refuses(pc: nat, job: Job, d0: Disk)
    requires Admissible(job, d0)
  {
    || (pc == 12 && !Plain(d0.fs[Input])) || (pc == 13 && !Plain(d0.fs[Output])) || (pc == 19 && !job.timely)
  }

  lemma AdmitCall(pc: nat, job: Job, d0: Disk, d: Disk)
    requires Rooted(d0.fs) && Admissible(job, d0) && 0 <= pc < 5 && RunAt(pc, job, d0, d)
    ensures var a := Exec(RunProgram(job)[pc], d);
            if Refuses(pc, job, d0) then !a.ok && a.disk == d else a.ok && RunAt(pc + 1, job, d0, a.disk)
  {
  }

  lemma SealInputCall(pc: nat, job: Job, d0: Disk, d: Disk)
    requires Rooted(d0.fs) && Admissible(job, d0) && 5 <= pc < 7 && RunAt(pc, job, d0, d)
    ensures var a := Exec(RunProgram(job)[pc], d);
            if Refuses(pc, job, d0) then !a.ok && a.disk == d else a.ok && RunAt(pc + 1, job, d0, a.disk)
  {
  }

  lemma RecordInputCall(pc: nat, job: Job, d0: Disk, d: Disk)
    requires Rooted(d0.fs) && Admissible(job, d0) && 7 <= pc < 9 && RunAt(pc, job, d0, d)
    ensures var a := Exec(RunProgram(job)[pc], d);
            if Refuses(pc, job, d0) then !a.ok && a.disk == d else a.ok && RunAt(pc + 1, job, d0, a.disk)
  {
  }

  lemma SealOutputCall(pc: nat, job: Job, d0: Disk, d: Disk)
    requires Rooted(d0.fs) && Admissible(job, d0) && 9 <= pc < 11 && RunAt(pc, job, d0, d)
    ensures var a := Exec(RunProgram(job)[pc], d);
            if Refuses(pc, job, d0) then !a.ok && a.disk == d else a.ok && RunAt(pc + 1, job, d0, a.disk)
  {
  }

  lemma CheckTreesCall(pc: nat, job: Job, d0: Disk, d: Disk)
    requires Rooted(d0.fs) && Admissible(job, d0) && 11 <= pc < 14 && RunAt(pc, job, d0, d)
    ensures var a := Exec(RunProgram(job)[pc], d);
            if Refuses(pc, job, d0) then !a.ok && a.disk == d else a.ok && RunAt(pc + 1, job, d0, a.disk)
  {
  }

  lemma SealProxyCall(pc: nat, job: Job, d0: Disk, d: Disk)
    requires Rooted(d0.fs) && Admissible(job, d0) && 14 <= pc < 18 && RunAt(pc, job, d0, d)
    ensures var a := Exec(RunProgram(job)[pc], d);
            if Refuses(pc, job, d0) then !a.ok && a.disk == d else a.ok && RunAt(pc + 1, job, d0, a.disk)
  {
  }

  lemma ConfigureCall(pc: nat, job: Job, d0: Disk, d: Disk)
    requires Rooted(d0.fs) && Admissible(job, d0) && 18 <= pc < 21 && RunAt(pc, job, d0, d)
    ensures var a := Exec(RunProgram(job)[pc], d);
            if Refuses(pc, job, d0) then !a.ok && a.disk == d else a.ok && RunAt(pc + 1, job, d0, a.disk)
  {
  }

  lemma RecordRunningCall(pc: nat, job: Job, d0: Disk, d: Disk)
    requires Rooted(d0.fs) && Admissible(job, d0) && 21 <= pc < 25 && RunAt(pc, job, d0, d)
    ensures var a := Exec(RunProgram(job)[pc], d);
            if Refuses(pc, job, d0) then !a.ok && a.disk == d else a.ok && RunAt(pc + 1, job, d0, a.disk)
  {
  }

  lemma ExecuteCall(pc: nat, job: Job, d0: Disk, d: Disk)
    requires Rooted(d0.fs) && Admissible(job, d0) && 25 <= pc < 29 && RunAt(pc, job, d0, d)
    ensures var a := Exec(RunProgram(job)[pc], d);
            if Refuses(pc, job, d0) then !a.ok && a.disk == d else a.ok && RunAt(pc + 1, job, d0, a.disk)
  {
  }

  /** Every cut of `run` is one of the 30 points of `RunAt`.  Of the calls themselves a tree check or the deadline
      raises, exactly when it refuses; any other exception leaves the disk of a cut where it is raised. */
  lemma {:induction false} RunCut(job: Job, d0: Disk, k: nat) returns (pc: nat)
    requires Rooted(d0.fs) && Admissible(job, d0) && k <= |RunProgram(job)|
    ensures var a := After(RunProgram(job)[..k], d0);
            && pc <= k && RunAt(pc, job, d0, a.disk)
            && (forall j | 0 <= j < pc :: !Refuses(j, job, d0))
            && (if a.ok then pc == k else pc < k && Refuses(pc, job, d0))
  {
    if k == 0 {
      assert RunProgram(job)[..0] == [];
      return 0;
    }
    pc := RunCut(job, d0, k - 1);
    assert RunProgram(job)[..k][..k - 1] == RunProgram(job)[..k - 1];
    var a := After(RunProgram(job)[..k - 1], d0);
    if a.ok {
      RunCall(pc, job, d0, a.disk);
      if !Refuses(pc, job, d0) { pc := k; }
    }
  }

  lemma RunCall(pc: nat, job: Job, d0: Disk, d: Disk)
    requires Rooted(d0.fs) && Admissible(job, d0) && pc < 29 && RunAt(pc, job, d0, d)
    ensures var a := Exec(RunProgram(job)[pc], d);
            if Refuses(pc, job, d0) then !a.ok && a.disk == d else a.ok && RunAt(pc + 1, job, d0, a.disk)
  {
    hide RunAt, Exec, Refuses;
    if pc < 5 { AdmitCall(pc, job, d0, d); }
    else if pc < 7 { SealInputCall(pc, job, d0, d); }
    else if pc < 9 { RecordInputCall(pc, job, d0, d); }
    else if pc < 11 { SealOutputCall(pc, job, d0, d); }
    else if pc < 14 { CheckTreesCall(pc, job, d0, d); }
    else if pc < 18 { SealProxyCall(pc, job, d0, d); }
    else if pc < 21 { ConfigureCall(pc, job, d0, d); }
    else if pc < 25 { RecordRunningCall(pc, job, d0, d); }
    else { ExecuteCall(pc, job, d0, d); }
  }

  /** An admitted run that is not cut succeeds exactly when both trees are plain and the deadline is ahead, and this is
      all it leaves. */
  lemma UncutRun(job: Job, d0: Disk)
    requires Rooted(d0.fs) && Admissible(job, d0)
    ensures var a := After(RunProgram(job), d0);
            && (a.ok <==> Plain(d0.fs[Input]) && Plain(d0.fs[Output]) && job.timely)
            && (a.ok ==> RunAt(29, job, d0, a.disk))
  {
    assert RunProgram(job)[..29] == RunProgram(job);
    var pc := RunCut(job, d0, 29);
    hide RunProgram, RunAt;
    if pc == 29 { assert !Refuses(12, job, d0) && !Refuses(13, job, d0) && !Refuses(19, job, d0); }
  }

  lemma RunAtHeld(pc: nat, job: Job, d0: Disk, d: Disk)
    requires Fresh(job, d0) && 2 <= pc <= 29 && RunAt(pc, job, d0, d)
    ensures Held(d)
  {
    forall p | p in d.fs ensures HasParent(p, d.fs) { }
  }

  /** Recovery: whatever call `run` is cut after, once its first record is durable one finalize whose
      verification passes completes exactly when the staged output is plain, and then leaves a single directory
      at the worker's output path and nothing else.  It is the sandbox's tree exactly when the last durable record
      restores, which takes all 29 calls and exit code 0. */
  lemma RecoveryFromEveryCut(job: Job, d0: Disk, k: nat, w: World)
    requires Fresh(job, d0) && 2 <= k <= |RunProgram(job)|
    requires w.processGone && w.containerGone
    ensures var d := CrashedAt(RunProgram(job), d0, k);
            && Held(d)
            && (d.journal.value.terminal == Restore <==>
                  After(RunProgram(job)[..k], d0).ok && k == 29 && job.exitCode == 0)
            && var a := After(FinalizeProgram(d.journal.value, w), d);
               && (a.ok <==> OutputPlain(d.fs))
               && (a.ok ==> a.disk == Disk(map[Output := if d.journal.value.terminal == Restore
                                                        then Dir(job.written, job.inode) else EMPTY], None, false))
  {
    var pc := RunCut(job, d0, k);
    var d := CrashedAt(RunProgram(job), d0, k);
    RunAtHeld(pc, job, d0, d);
    FinalizeOutcome(d, w);
  }

  /** Before the first record is durable nothing the worker owns has moved. */
  lemma UntouchedBeforeFirstRecord(job: Job, d0: Disk, k: nat)
    requires k <= 1
    ensures var d := CrashedAt(RunProgram(job), d0, k); d.fs == d0.fs && d.journal == d0.journal
  {
    if k == 0 { assert RunProgram(job)[..0] == []; }
    else {
      assert RunProgram(job)[..1] == [Scratch];
      AfterOne(Scratch, d0);
    }
  }

  // ---------------------------------------------------------------- whole runs of finalize

  /** What can happen to an attempt's disk while nobody holds its operation lock for long. */
  datatype Event =
    | Finalize(world: World, cut: nat)  // `cut` calls are made, or all of them
    | Occupy(node: Node)                // somebody else creates the output path
    | Vacate(node: Node)                // ... or takes that node away again

  function Happens(e: Event, d: Disk): Disk {
    match e
    case Finalize(w, cut) =>
      if d.journal.None? then d  // the journal cannot be loaded: finalize raises at once
      else
        var prog := FinalizeProgram(d.journal.value, w);
        CrashedAt(prog, d, if cut < |prog| then cut else |prog|)
    case Occupy(node) => if Output in d.fs then d else d.(fs := d.fs[Output := node])
    case Vacate(node) => if Output in d.fs && d.fs[Output] == node then d.(fs := d.fs - {Output}) else d
  }

  function Happened(es: seq<Event>, d: Disk): Disk {
    if es == [] then d else Happens(es[|es| - 1], Happened(es[..|es| - 1], d))
  }

  ghost predicate InStaging(x: Disk, r: Record, tree: Node) {
    && Held(x) && x.journal == Some(r)
    && StagedOutput in x.fs && x.fs[StagedOutput] == tree
    && (Output in x.fs ==> x.fs[Output] != tree)
  }

  ghost predicate Delivered(x: Disk, r: Record, tree: Node) {
    && (x.journal == None || (x.journal == Some(r) && Held(x)))
    && Output in x.fs && x.fs[Output] == tree
    && (StagedOutput in x.fs ==> x.fs[StagedOutput] == EMPTY)
  }

  /** A restoring record, in the phase that writes one, and a tree the broker did not make itself. */
  predicate Restoring(r: Record, tree: Node) {
    r.terminal == Restore && !Early(r.phase) && tree != EMPTY
  }

  lemma CallKeepsDelivered(op: Op, r: Record, tree: Node, x: Disk)
    requires Restoring(r, tree) && Delivered(x, r, tree)
    requires Reconciling(op, r) || op == Settle(false)
    ensures Delivered(Exec(op, x).disk, r, tree)
  {
  }

  lemma CallKeepsInStaging(op: Op, r: Record, tree: Node, x: Disk)
    requires Restoring(r, tree) && InStaging(x, r, tree) && Reconciling(op, r)
    ensures InStaging(Exec(op, x).disk, r, tree)
  {
  }

  predicate Closes(op: Op) {
    op == DropScratch || op == Forget || ((op.Thin? || op.Remove?) && (op.p == StagedOutput || op.p == Staging))
  }

  lemma CloseCalls(w: World)
    ensures forall i | 0 <= i < |Close(w)| :: Closes(Close(w)[i])
  {
    ScrubCalls([StagedOutput, Staging], w.parts);
  }

  lemma ClosingCallKeepsDelivered(op: Op, r: Record, tree: Node, x: Disk)
    requires Restoring(r, tree) && Delivered(x, r, tree) && Closes(op)
    ensures Delivered(Exec(op, x).disk, r, tree)
  {
    match op
    case Thin(p, partial) => case Remove(p) => case DropScratch => case Forget =>
  }

  /** One finalize, cut anywhere, under any answers. */
  lemma FinalizeCutKeepsTree(r: Record, tree: Node, w: World, k: nat, x: Disk)
    requires Restoring(r, tree) && k <= |FinalizeProgram(r, w)| && x.journal == Some(r)
    requires InStaging(x, r, tree) || Delivered(x, r, tree)
    ensures var y := CrashedAt(FinalizeProgram(r, w), x, k);
            && (InStaging(y, r, tree) || Delivered(y, r, tree))
            && (Delivered(x, r, tree) ==> Delivered(y, r, tree))
  {
    var pre, rest := Reconcile(r, w), [Settle(Early(r.phase))] + Close(w);
    CrashInConcat(pre, rest, x, k);
    ReconcileKeepsTree(r, tree, w, if k < |pre| then k else |pre|, x);
    assert pre[..|pre|] == pre;
    hide Reconcile, Close, InStaging, Delivered, Exec;
    var mid := After(pre, x);
    if k > |pre| && mid.ok { CloseKeepsTree(r, tree, w, k - |pre|, mid.disk); }
  }

  lemma CloseKeepsTree(r: Record, tree: Node, w: World, j: nat, x: Disk)
    requires Restoring(r, tree) && 0 < j <= 1 + |Close(w)|
    requires InStaging(x, r, tree) || Delivered(x, r, tree)
    ensures var y := CrashedAt([Settle(Early(r.phase))] + Close(w), x, j);
            && (InStaging(y, r, tree) || Delivered(y, r, tree))
            && (Delivered(x, r, tree) ==> Delivered(y, r, tree))
  {
    CrashInConcat([Settle(false)], Close(w), x, j);
    AfterOne(Settle(false), x);
    var settled := Exec(Settle(false), x);
    if settled.ok {
      assert Delivered(settled.disk, r, tree);
      CloseCalls(w);
      forall i, z: Disk | 0 <= i < |Close(w)| && Delivered(z, r, tree)
        ensures Delivered(Exec(Close(w)[i], z).disk, r, tree)
      {
        ClosingCallKeepsDelivered(Close(w)[i], r, tree, z);
      }
      KeptAtEveryCrash(Close(w), settled.disk, j - 1, z => Delivered(z, r, tree));
    }
  }

  lemma ReconcileKeepsTree(r: Record, tree: Node, w: World, k: nat, x: Disk)
    requires Restoring(r, tree) && k <= |Reconcile(r, w)| && x.journal == Some(r)
    requires InStaging(x, r, tree) || Delivered(x, r, tree)
    ensures var y := CrashedAt(Reconcile(r, w), x, k);
            && (InStaging(x, r, tree) ==> InStaging(y, r, tree))
            && (Delivered(x, r, tree) ==> Delivered(y, r, tree))
  {
    var pre := Reconcile(r, w);
    ReconcileCalls(r, w);
    if InStaging(x, r, tree) {
      forall i, z: Disk | 0 <= i < |pre| && InStaging(z, r, tree) ensures InStaging(Exec(pre[i], z).disk, r, tree) {
        CallKeepsInStaging(pre[i], r, tree, z);
      }
      KeptAtEveryCrash(pre, x, k, z => InStaging(z, r, tree));
    }
    if Delivered(x, r, tree) {
      forall i, z: Disk | 0 <= i < |pre| && Delivered(z, r, tree) ensures Delivered(Exec(pre[i], z).disk, r, tree) {
        CallKeepsDelivered(pre[i], r, tree, z);
      }
      KeptAtEveryCrash(pre, x, k, z => Delivered(z, r, tree));
    }
  }

  lemma FinalizeEventKeepsTree(r: Record, tree: Node, e: Event, x: Disk)
    requires Restoring(r, tree) && e.Finalize? && (InStaging(x, r, tree) || Delivered(x, r, tree))
    ensures var y := Happens(e, x);
            && (InStaging(y, r, tree) || Delivered(y, r, tree))
            && (Delivered(x, r, tree) ==> Delivered(y, r, tree))
  {
    if x.journal.Some? {
      var prog := FinalizeProgram(r, e.world);
      FinalizeCutKeepsTree(r, tree, e.world, if e.cut < |prog| then e.cut else |prog|, x);
    }
  }

  /** A published tree is never changed by any later sequence of finalizes and intruders. */
  lemma {:induction false} PublicationIsFinal(es: seq<Event>, r: Record, tree: Node, d: Disk)
    requires Restoring(r, tree) && Delivered(d, r, tree)
    requires forall i | 0 <= i < |es| && es[i].Vacate? :: es[i].node != tree
    ensures Delivered(Happened(es, d), r, tree)
  {
    if es != [] {
      PublicationIsFinal(es[..|es| - 1], r, tree, d);
      var x, e := Happened(es[..|es| - 1], d), es[|es| - 1];
      if e.Finalize? { FinalizeEventKeepsTree(r, tree, e, x); }
    }
  }

  /** Conservation: once the restoring record is durable, any number of finalizes, each cut anywhere under any
      answers, and any intruders that come to the output path or leave it, keep the sandbox's tree in exactly one
      of the staging area and the output path; a refused publication keeps it staged. */
  lemma {:induction false} TreeIsConserved(es: seq<Event>, r: Record, tree: Node, d: Disk)
    requires Restoring(r, tree) && InStaging(d, r, tree)
    requires forall i | 0 <= i < |es| && (es[i].Occupy? || es[i].Vacate?) :: es[i].node != tree
    ensures var x := Happened(es, d);
            && (InStaging(x, r, tree) || Delivered(x, r, tree))
            && (StagedOutput in x.fs && x.fs[StagedOutput] == tree) != (Output in x.fs && x.fs[Output] == tree)
  {
    if es != [] {
      TreeIsConserved(es[..|es| - 1], r, tree, d);
      var x, e := Happened(es[..|es| - 1], d), es[|es| - 1];
      if e.Finalize? { FinalizeEventKeepsTree(r, tree, e, x); }
    }
  }

  /** A finalize that is not cut. */
  function Whole(r: Record, w: World): Event { Finalize(w, |FinalizeProgram(r, w)|) }

  lemma WholeIsAll(r: Record, w: World, d: Disk)
    requires d.journal == Some(r)
    ensures Happens(Whole(r, w), d) == After(FinalizeProgram(r, w), d).disk
  {
    assert FinalizeProgram(r, w)[..|FinalizeProgram(r, w)|] == FinalizeProgram(r, w);
  }

  lemma RefusedFinalize(r: Record, tree: Node, w: World, d: Disk)
    requires Restoring(r, tree) && InStaging(d, r, tree) && Output in d.fs && OutputPlain(d.fs)
    requires w.processGone && w.containerGone
    ensures var x := After(FinalizeProgram(r, w), d).disk;
            InStaging(x, r, tree) && Output in x.fs && x.fs[Output] == d.fs[Output]
  {
    BeforeSettle(d, w);
    var mid := After(Reconcile(r, w), d).disk;
    AfterConcat(Reconcile(r, w), [Settle(false)] + Close(w), d);
    AfterConcat([Settle(false)], Close(w), mid);
    AfterOne(Settle(false), mid);
    assert Published(d) == tree && !Exec(Settle(false), mid).ok;
  }

  lemma {:induction false} HappenedConcat(a: seq<Event>, b: seq<Event>, d: Disk)
    ensures Happened(a + b, d) == Happened(b, Happened(a, d))
    decreases |b|
  {
    hide Happens;
    if b == [] {
      assert a + b == a;
    } else {
      assert (a + b)[..|a + b| - 1] == a + b[..|b| - 1];
      HappenedConcat(a, b[..|b| - 1], d);
    }
  }

  lemma StepsInTurn(a: Event, b: Event, d: Disk)
    ensures Happened([a] + [b], d) == Happens(b, Happens(a, d))
    ensures Happened([a], d) == Happens(a, d)
  {
    hide Happens;
    HappenedConcat([a], [b], d);
    assert [a][..0] == [] && [b][..0] == [];
  }

  /** A publication that somebody else's path blocks is refused and the tree stays staged; once that path is gone the
      next finalize publishes it. */
  lemma RefusedThenPublished(r: Record, tree: Node, d: Disk, other: Node, w: World)
    requires Restoring(r, tree) && InStaging(d, r, tree) && Output !in d.fs && OutputPlain(d.fs) && other != tree
    requires w.processGone && w.containerGone
    ensures var blocked := Happened([Occupy(other)] + [Whole(r, w)], d);
            && InStaging(blocked, r, tree) && Output in blocked.fs && blocked.fs[Output] == other
            && Happened([Vacate(other)] + [Whole(r, w)], blocked) == Disk(map[Output := tree], None, false)
  {
    var occupied := Happens(Occupy(other), d);
    StepsInTurn(Occupy(other), Whole(r, w), d);
    WholeIsAll(r, w, occupied);
    RefusedFinalize(r, tree, w, occupied);
    var blocked := Happened([Occupy(other)] + [Whole(r, w)], d);
    var vacant := Happens(Vacate(other), blocked);
    StepsInTurn(Vacate(other), Whole(r, w), blocked);
    WholeIsAll(r, w, vacant);
    FinalizeOutcome(vacant, w);
  }

  /** The conservation hypothesis is what a successful run leaves. */
  lemma SuccessfulRunStages(job: Job, d0: Disk)
    requires Fresh(job, d0) && After(RunProgram(job), d0).ok && job.exitCode == 0
    ensures var x := After(RunProgram(job), d0).disk;
            x.journal.Some? && Restoring(x.journal.value, Dir(job.written, job.inode))
            && InStaging(x, x.journal.value, Dir(job.written, job.inode))
  {
    assert RunProgram(job)[..29] == RunProgram(job);
    var pc := RunCut(job, d0, 29);
    RunAtHeld(pc, job, d0, After(RunProgram(job), d0).disk);
  }

  /** Any number of finalizes cut before publication, then one that is not: the result is the uncut one's. */
  lemma {:induction false} RetriesConverge(es: seq<Event>, d: Disk, w: World)
    requires Held(d) && OutputPlain(d.fs) && (Output in d.fs ==> Early(d.journal.value.phase))
    requires forall i | 0 <= i < |es| ::
               es[i].Finalize? && es[i].cut <= SettleIndex(d.journal.value, es[i].world)
    requires w.processGone && w.containerGone
    ensures var x := Happened(es, d);
            && Resumable(d, x)
            && After(FinalizeProgram(d.journal.value, w), x)
               == Attempt(Disk(map[Output := Published(d)], None, false), true)
  {
    if es != [] {
      RetriesConverge(es[..|es| - 1], d, w);
      var x, e := Happened(es[..|es| - 1], d), es[|es| - 1];
      CutBeforePublication(x, e.world, e.cut);
    }
    FinalizeOutcome(Happened(es, d), w);
  }
}
