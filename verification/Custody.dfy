/** The write-ahead custody protocol: what `run` does step by step, what `finalize` does, and what is
    true however the two are cut short and retried. */
module Custody {
  import opened Host
  import opened Options

  /** One admitted attempt.  `timely` says its deadline still parses as one ahead when the sandbox is configured.
      The sandbox fills the worker's output directory `inode`: `partial` is what a moment during its execution finds
      there, `written` what it leaves, and `exitCode` is runsc's. */
  datatype Job = Job(
    hasProxy: bool, timely: bool, runner: Identity, inode: nat, partial: map<string, Node>,
    written: map<string, Node>, exitCode: int)

  predicate Early(p: Phase) { p == Prepared || p == InputSealed }

  /** The checks `run` makes before it writes anything. */
  predicate Admissible(job: Job, d: Disk) {
    && Input in d.fs && d.fs[Input].Dir?
    && Output in d.fs && d.fs[Output].Dir?
    && (job.hasProxy ==> Proxy in d.fs && d.fs[Proxy].Socket?)
    && Staging !in d.fs && Bundle !in d.fs && State !in d.fs
  }

  function Entry(job: Job, phase: Phase, terminal: Terminal, runner: Option<Identity>): Op {
    Journal(Record(phase, terminal, job.hasProxy, runner))
  }

  function RunProgram(job: Job): seq<Op> {
    [ Scratch, Entry(job, Prepared, Discard, None),
      Mkdir(Staging), Mkdir(Bundle), Mkdir(State),
      Move(Input, StagedInput),
      Scratch, Entry(job, InputSealed, Discard, None),
      Move(Output, StagedOutput),
      Scratch, Entry(job, OutputSealed, Discard, None),
      CheckDir(StagedInput), CheckPlain(StagedInput), CheckPlain(StagedOutput),
      if job.hasProxy then Move(Proxy, StagedProxy) else Skip,
      if job.hasProxy then CheckSocket(StagedProxy) else Skip,
      if job.hasProxy then Scratch else Skip,
      if job.hasProxy then Entry(job, ProxySealed, Discard, None) else Skip,
      Put(JobFile, File([])), Gate(job.timely), Put(ConfigFile, File([])),
      Scratch, Entry(job, Configured, Discard, None),
      Scratch, Entry(job, Running, Discard, Some(job.runner)),
      Put(StagedOutput, Dir(job.partial, job.inode)), Put(StagedOutput, Dir(job.written, job.inode)),
      Scratch,
      Entry(job, if job.exitCode == 0 then RunFinished else RunFailed,
            if job.exitCode == 0 then Restore else Discard, Some(job.runner)) ]
  }

  /** What the outside world answers during one finalize, and how its removals are cut up. */
  datatype World = World(processGone: bool, containerGone: bool, parts: map<Path, Partial>)

  function Verify(r: Record, w: World): seq<Op> {
    [Gate(r.runner.None? || w.processGone), GateIf(State, w.containerGone)] + Scrub([State], w.parts)
  }

  function Prepare(r: Record, w: World): seq<Op> {
    [EnsureDir(Staging), CheckPlain(StagedOutput)]
    + if r.terminal != Restore then Scrub([StagedOutput], w.parts) + [Mkdir(StagedOutput)]
      else [EnsureDir(StagedOutput)]
  }

  function Purge(r: Record, w: World): seq<Op> {
    Scrub([Input, StagedInput], w.parts)
    + [if r.hasProxy then UnlinkSocket(Proxy) else Skip, UnlinkSocket(StagedProxy)]
    + Scrub([Bundle], w.parts)
  }

  function Close(w: World): seq<Op> {
    Scrub([StagedOutput, Staging], w.parts) + [DropScratch, Forget]
  }

  /** Everything before the output is published. */
  function Reconcile(r: Record, w: World): seq<Op> {
    Verify(r, w) + (Prepare(r, w) + Purge(r, w))
  }

  function FinalizeProgram(r: Record, w: World): seq<Op> {
    Reconcile(r, w) + ([Settle(Early(r.phase))] + Close(w))
  }

  /** The shape every disk has between the first journal entry and its removal. */
  ghost predicate Held(d: Disk) {
    && d.journal.Some?
    && (forall p | p in d.fs :: HasParent(p, d.fs))
    && (Staging in d.fs ==> d.fs[Staging].Dir?)
    && (StagedProxy in d.fs ==> d.fs[StagedProxy].Socket?)
    && (Proxy in d.fs ==> d.fs[Proxy].Socket? && d.journal.value.hasProxy)
  }

  predicate Verified(d: Disk, w: World)
    requires d.journal.Some?
  {
    && (d.journal.value.runner.None? || w.processGone)
    && (State in d.fs ==> w.containerGone)
  }

  /** Exactly when a finalize that is not cut short completes. */
  predicate Completes(d: Disk, w: World)
    requires d.journal.Some?
  {
    && Verified(d, w)
    && OutputPlain(d.fs)
    && (Output in d.fs ==> Early(d.journal.value.phase))
  }

  function Published(d: Disk): Node
    requires d.journal.Some?
  {
    if d.journal.value.terminal == Restore && StagedOutput in d.fs then d.fs[StagedOutput] else EMPTY
  }

  // ---------------------------------------------------------------- the sections of finalize

  lemma TreesOfOne(p: Path)
    ensures Trees([p]) == Tree(p)
  {
    assert [p][..0] == [];
  }

  lemma TreesOfTwo(p: Path, q: Path)
    ensures Trees([p, q]) == Tree(p) + Tree(q)
  {
    assert [p, q][..1] == [p];
    TreesOfOne(p);
  }

  lemma VerifyEffect(r: Record, w: World, d: Disk)
    requires d.journal == Some(r)
    ensures var a := After(Verify(r, w), d);
            if Verified(d, w) then a == Attempt(d.(fs := d.fs - {State}), true) else !a.ok
  {
    var gates := [Gate(r.runner.None? || w.processGone), GateIf(State, w.containerGone)];
    AfterConcat(gates, Scrub([State], w.parts), d);
    AfterTwo(gates[0], gates[1], d);
    ScrubRemoves([State], w.parts, d);
    TreesOfOne(State);
  }

  function WithStaging(fs: Fs): Fs { if Staging in fs then fs else fs[Staging := EMPTY] }

  predicate OutputPlain(fs: Fs) {
    StagedOutput in fs ==> fs[StagedOutput].Dir? && Plain(fs[StagedOutput])
  }

  lemma PrepareHead(d: Disk)
    requires Held(d)
    ensures var a := After([EnsureDir(Staging), CheckPlain(StagedOutput)], d);
            if OutputPlain(d.fs) then a == Attempt(d.(fs := WithStaging(d.fs)), true) else !a.ok
  {
    AfterTwo(EnsureDir(Staging), CheckPlain(StagedOutput), d);
  }

  lemma Emptied(w: World, d: Disk)
    requires Staging in d.fs
    ensures After(Scrub([StagedOutput], w.parts) + [Mkdir(StagedOutput)], d)
         == Attempt(d.(fs := d.fs[StagedOutput := EMPTY]), true)
  {
    AfterConcat(Scrub([StagedOutput], w.parts), [Mkdir(StagedOutput)], d);
    ScrubRemoves([StagedOutput], w.parts, d);
    TreesOfOne(StagedOutput);
    assert Tree(StagedOutput) == {StagedOutput};
    var gone := d.(fs := d.fs - {StagedOutput});
    AfterOne(Mkdir(StagedOutput), gone);
    assert gone.fs[StagedOutput := EMPTY] == d.fs[StagedOutput := EMPTY];
  }

  lemma PrepareEffect(r: Record, w: World, d: Disk)
    requires Held(d) && d.journal == Some(r)
    ensures var a := After(Prepare(r, w), d);
            if OutputPlain(d.fs)
            then a == Attempt(d.(fs := WithStaging(d.fs)[StagedOutput := Published(d)]), true)
            else !a.ok
  {
    var rest := if r.terminal != Restore then Scrub([StagedOutput], w.parts) + [Mkdir(StagedOutput)]
                else [EnsureDir(StagedOutput)];
    AfterConcat([EnsureDir(Staging), CheckPlain(StagedOutput)], rest, d);
    PrepareHead(d);
    var mid := d.(fs := WithStaging(d.fs));
    if r.terminal != Restore {
      Emptied(w, mid);
    } else {
      AfterOne(EnsureDir(StagedOutput), mid);
      assert StagedOutput in mid.fs ==> mid.fs == mid.fs[StagedOutput := Published(d)];
    }
  }

  const PURGED := {Input, StagedInput, Proxy, StagedProxy, Bundle, JobFile, ConfigFile}

  lemma SocketsGone(r: Record, d: Disk)
    requires StagedProxy in d.fs ==> d.fs[StagedProxy].Socket?
    requires Proxy in d.fs ==> d.fs[Proxy].Socket? && r.hasProxy
    ensures After([if r.hasProxy then UnlinkSocket(Proxy) else Skip, UnlinkSocket(StagedProxy)], d)
         == Attempt(d.(fs := d.fs - {Proxy, StagedProxy}), true)
  {
    var op := if r.hasProxy then UnlinkSocket(Proxy) else Skip;
    AfterTwo(op, UnlinkSocket(StagedProxy), d);
    var d1 := Exec(op, d).disk;
    assert d1.fs == d.fs - {Proxy};
    assert Exec(UnlinkSocket(StagedProxy), d1).disk.fs == d1.fs - {StagedProxy};
    MinusTwice(d.fs, {Proxy}, {StagedProxy});
  }

  lemma PurgeEffect(r: Record, w: World, d: Disk)
    requires Held(d) && d.journal == Some(r)
    ensures After(Purge(r, w), d) == Attempt(d.(fs := d.fs - PURGED), true)
  {
    var sockets := [if r.hasProxy then UnlinkSocket(Proxy) else Skip, UnlinkSocket(StagedProxy)];
    var inputs, bundle := Scrub([Input, StagedInput], w.parts), Scrub([Bundle], w.parts);
    AfterConcat(inputs + sockets, bundle, d);
    AfterConcat(inputs, sockets, d);
    ScrubRemoves([Input, StagedInput], w.parts, d);
    TreesOfTwo(Input, StagedInput);
    var d1 := After(inputs, d).disk;
    SocketsGone(r, d1);
    var d2 := After(sockets, d1).disk;
    ScrubRemoves([Bundle], w.parts, d2);
    TreesOfOne(Bundle);
    MinusTwice(d.fs, Trees([Input, StagedInput]), {Proxy, StagedProxy});
    MinusTwice(d.fs, Trees([Input, StagedInput]) + {Proxy, StagedProxy}, Tree(Bundle));
    assert Trees([Input, StagedInput]) + {Proxy, StagedProxy} + Tree(Bundle) == PURGED;
  }

  const CLOSED := {Staging, StagedInput, StagedOutput, StagedProxy}

  lemma CloseEffect(w: World, d: Disk)
    ensures After(Close(w), d) == Attempt(Disk(d.fs - CLOSED, None, false), true)
  {
    AfterConcat(Scrub([StagedOutput, Staging], w.parts), [DropScratch, Forget], d);
    ScrubRemoves([StagedOutput, Staging], w.parts, d);
    TreesOfTwo(StagedOutput, Staging);
    assert Trees([StagedOutput, Staging]) == CLOSED;
    AfterTwo(DropScratch, Forget, d.(fs := d.fs - CLOSED));
  }

  /** Publication and everything after it, once the staged output is final and the rest is purged. */
  lemma PublishEffect(r: Record, w: World, d: Disk)
    requires StagedOutput in d.fs && d.fs.Keys <= CLOSED + {Output}
    ensures var a := After([Settle(Early(r.phase))] + Close(w), d);
            if Output in d.fs ==> Early(r.phase)
            then a == Attempt(Disk(map[Output := d.fs[StagedOutput]], None, false), true)
            else !a.ok
  {
    AfterConcat([Settle(Early(r.phase))], Close(w), d);
    AfterOne(Settle(Early(r.phase)), d);
    var a := Exec(Settle(Early(r.phase)), d);
    if a.ok {
      CloseEffect(w, a.disk);
      assert a.disk.fs - CLOSED == map[Output := d.fs[StagedOutput]];
    }
  }

  lemma EveryPath(p: Path)
    ensures p in PURGED + CLOSED + {Output, State}
  {
    match p
    case Input => case Output => case Proxy => case Staging => case StagedInput => case StagedOutput =>
    case StagedProxy => case Bundle => case JobFile => case ConfigFile => case State =>
  }

  lemma PreparedIsHeld(d: Disk, d2: Disk)
    requires Held(d) && State !in d.fs
    requires d2 == d.(fs := WithStaging(d.fs)[StagedOutput := Published(d)])
    ensures Held(d2) && SameOutput(d, d2)
    ensures (d2.fs - PURGED).Keys <= CLOSED + {Output}
  {
    forall p | p in d2.fs - PURGED ensures p in CLOSED + {Output} { EveryPath(p); }
  }

  lemma PurgedIsReconciled(d: Disk, d2: Disk)
    requires Held(d) && Held(d2) && SameOutput(d, d2) && d2.journal == d.journal
    requires StagedOutput in d2.fs && d2.fs[StagedOutput] == Published(d) && Staging in d2.fs
    requires (d2.fs - PURGED).Keys <= CLOSED + {Output}
    ensures Reconciled(d, Attempt(d2.(fs := d2.fs - PURGED), true))
  {
    var x := d2.(fs := d2.fs - PURGED);
    assert Staging in x.fs && x.fs[Staging] == d2.fs[Staging];
    forall p | p in x.fs ensures HasParent(p, x.fs) { }
    assert StagedProxy !in x.fs && Proxy !in x.fs;
  }

  lemma PreparedAndPurged(r: Record, w: World, d: Disk)
    requires Held(d) && d.journal == Some(r) && State !in d.fs
    ensures var a := After(Prepare(r, w) + Purge(r, w), d);
            if OutputPlain(d.fs) then Reconciled(d, a) else !a.ok
  {
    AfterConcat(Prepare(r, w), Purge(r, w), d);
    PrepareEffect(r, w, d);
    if OutputPlain(d.fs) {
      var d2 := d.(fs := WithStaging(d.fs)[StagedOutput := Published(d)]);
      PreparedIsHeld(d, d2);
      PurgeEffect(r, w, d2);
      PurgedIsReconciled(d, d2);
    }
  }

  ghost predicate Reconciled(d: Disk, a: Attempt)
    requires d.journal.Some?
  {
    && a.ok && Held(a.disk) && a.disk.journal == d.journal
    && a.disk.fs.Keys <= CLOSED + {Output}
    && StagedOutput in a.disk.fs && a.disk.fs[StagedOutput] == Published(d)
    && SameOutput(d, a.disk)
  }

  predicate SameOutput(d: Disk, e: Disk) {
    && (Output in d.fs <==> Output in e.fs)
    && (Output in d.fs ==> d.fs[Output] == e.fs[Output])
  }

  lemma BeforeSettle(d: Disk, w: World)
    requires Held(d)
    ensures var a := After(Reconcile(d.journal.value, w), d);
            if Verified(d, w) && OutputPlain(d.fs) then Reconciled(d, a) else !a.ok
  {
    var r := d.journal.value;
    AfterConcat(Verify(r, w), Prepare(r, w) + Purge(r, w), d);
    VerifyEffect(r, w, d);
    if Verified(d, w) {
      PreparedAndPurged(r, w, d.(fs := d.fs - {State}));
    }
  }

  /** A finalize from any held disk: when it completes, and everything it leaves. */
  lemma FinalizeOutcome(d: Disk, w: World)
    requires Held(d)
    ensures var a := After(FinalizeProgram(d.journal.value, w), d);
            && (a.ok <==> Completes(d, w))
            && (a.ok ==> a.disk == Disk(map[Output := Published(d)], None, false))
  {
    var r := d.journal.value;
    AfterConcat(Reconcile(r, w), [Settle(Early(r.phase))] + Close(w), d);
    BeforeSettle(d, w);
    if Verified(d, w) && OutputPlain(d.fs) {
      PublishEffect(r, w, After(Reconcile(r, w), d).disk);
    }
  }

  /** A sealed output the worker left a symlink in, under a record that discards it. */
  const LINKED :=
    Disk(map[Staging := EMPTY, StagedOutput := Dir(map["link" := Link], 7)],
      Some(Record(OutputSealed, Discard, false, None)), false)

  /** No finalize completes on it, whatever the answers, although nothing in it is to be kept. */
  lemma DiscardRefusesSymlink(w: World)
    ensures Held(LINKED) && Published(LINKED) == EMPTY
    ensures !After(FinalizeProgram(LINKED.journal.value, w), LINKED).ok
  {
    assert !Plain(LINKED.fs[StagedOutput]) by { assert LINKED.fs[StagedOutput].entries["link"] == Link; }
    FinalizeOutcome(LINKED, w);
  }

  // ---------------------------------------------------------------- finalize cut short

  lemma CrashInConcat(a: seq<Op>, b: seq<Op>, d: Disk, k: nat)
    requires k <= |a + b|
    ensures k <= |a| ==> CrashedAt(a + b, d, k) == CrashedAt(a, d, k)
    ensures k >= |a| ==>
      CrashedAt(a + b, d, k)
      == (if After(a, d).ok then CrashedAt(b, After(a, d).disk, k - |a|) else After(a, d).disk)
  {
    if k <= |a| { assert (a + b)[..k] == a[..k]; }
    if k >= |a| {
      assert (a + b)[..k] == a + b[..k - |a|];
      AfterConcat(a, b[..k - |a|], d);
    }
  }

  const ROOTED := {State, Input, StagedInput, Bundle}

  /** The calls of `Reconcile`, whatever the disk. */
  predicate Reconciling(op: Op, r: Record) {
    match op
    case Skip => true
    case Gate(_) => true
    case GateIf(_, _) => true
    case CheckPlain(_) => true
    case EnsureDir(p) => p == Staging || (p == StagedOutput && r.terminal == Restore)
    case UnlinkSocket(p) => p == Proxy || p == StagedProxy
    case Thin(p, _) => p in ROOTED || (p == StagedOutput && r.terminal != Restore)
    case Remove(p) => p in ROOTED || (p == StagedOutput && r.terminal != Restore)
    case Mkdir(p) => p == StagedOutput && r.terminal != Restore
    case _ => false
  }

  lemma {:induction false} ScrubCalls(ps: seq<Path>, parts: map<Path, Partial>)
    ensures forall i | 0 <= i < |Scrub(ps, parts)| ::
              var op := Scrub(ps, parts)[i]; (op.Thin? || op.Remove?) && op.p in ps
    decreases |ps|
  {
    if ps != [] {
      ScrubCalls(ps[..|ps| - 1], parts);
      assert forall p | p in ps[..|ps| - 1] :: p in ps;
    }
  }

  lemma ReconcileCalls(r: Record, w: World)
    ensures forall i | 0 <= i < |Reconcile(r, w)| :: Reconciling(Reconcile(r, w)[i], r)
  {
    ScrubCalls([State], w.parts);
    ScrubCalls([StagedOutput], w.parts);
    ScrubCalls([Input, StagedInput], w.parts);
    ScrubCalls([Bundle], w.parts);
    assert forall i | 0 <= i < |Verify(r, w)| :: Reconciling(Verify(r, w)[i], r);
    assert forall i | 0 <= i < |Prepare(r, w)| :: Reconciling(Prepare(r, w)[i], r);
    assert forall i | 0 <= i < |Purge(r, w)| :: Reconciling(Purge(r, w)[i], r);
  }

  /** What a cut in `Reconcile` cannot spoil: the retry publishes the same tree at the same place. */
  ghost predicate Resumable(d: Disk, x: Disk)
    requires d.journal.Some?
  {
    && Held(x) && x.journal == d.journal && SameOutput(d, x)
    && (OutputPlain(d.fs) ==> OutputPlain(x.fs))
    && Published(x) == Published(d)
    && (State in x.fs ==> State in d.fs)
  }

  lemma ThinKeepsHeld(op: Op, x: Disk)
    requires Held(x) && op.Thin? && (op.p in ROOTED || op.p == StagedOutput)
    ensures Held(Exec(op, x).disk)
  {
    var y := Exec(op, x).disk;
    assert forall q | q in y.fs :: q in x.fs;
    forall q | q in y.fs ensures HasParent(q, y.fs) { assert HasParent(q, x.fs); }
  }

  lemma ThinKeepsResumable(op: Op, d: Disk, x: Disk)
    requires d.journal.Some? && Resumable(d, x) && Reconciling(op, d.journal.value) && op.Thin?
    ensures Resumable(d, Exec(op, x).disk)
  {
    ThinKeepsHeld(op, x);
    var p, left, y := op.p, op.partial.left, Exec(op, x).disk;
    if p in x.fs && Pruned(left, x.fs[p]) {
      if Plain(x.fs[p]) { PrunedPlain(left, x.fs[p]); }
      assert y.fs.Keys <= x.fs.Keys;
      assert p != Output && SameOutput(x, y);
      assert StagedOutput in y.fs ==> y.fs[StagedOutput] == if p == StagedOutput then left else x.fs[StagedOutput];
    }
  }

  lemma DirectoryCallKeepsResumable(op: Op, d: Disk, x: Disk)
    requires d.journal.Some? && Resumable(d, x) && Reconciling(op, d.journal.value)
    requires op.Mkdir? || op.EnsureDir? || op.Remove?
    ensures Resumable(d, Exec(op, x).disk)
  {
  }

  lemma CallKeepsResumable(op: Op, d: Disk, x: Disk)
    requires d.journal.Some? && Resumable(d, x) && Reconciling(op, d.journal.value)
    ensures Resumable(d, Exec(op, x).disk)
  {
    if op.Thin? { ThinKeepsResumable(op, d, x); }
    else if op.Mkdir? || op.EnsureDir? || op.Remove? { DirectoryCallKeepsResumable(op, d, x); }
  }
}
