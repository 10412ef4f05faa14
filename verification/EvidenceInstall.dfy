/** Installing released evidence: several installers race, each may die at any step, and no destination is
    ever partial, replaced, or named by a manifest before it is there. */
module EvidenceInstall {

  type Bytes = seq<int>

  /** One file to install: where, and the bytes read from the bundle. */
  datatype Target = Target(path: string, content: Bytes)

  datatype Pc = Checking | Opening | Writing(written: nat) | Linking | Unlinking | Closing

  datatype Status = Running | Done | Refused | Dead

  /** `install_evidence` of one process: two evidence files, then the manifest that names them. */
  datatype Installer = Installer(plan: seq<Target>, at: nat, pc: Pc, status: Status)

  datatype Temp = Temp(path: string, pid: int)

  datatype World = World(dest: map<string, Bytes>, temps: map<Temp, Bytes>, installers: map<int, Installer>)

  datatype Event = Advance(pid: int, chunk: nat) | Crash(pid: int)

  type Digest = Bytes -> int

  function Next(i: Installer): Installer {
    if i.at + 1 < |i.plan| then i.(at := i.at + 1, pc := Checking) else i.(at := i.at + 1, status := Done)
  }

  const MAX_EVIDENCE_BYTES := 64 * 1024 * 1024

  /** `existing_is_identical`: small enough to be read, and of the same digest. */
  predicate Identical(existing: Bytes, content: Bytes, sha: Digest) {
    |existing| <= MAX_EVIDENCE_BYTES && sha(existing) == sha(content)
  }

  function Compare(w: World, i: Installer, t: Target, sha: Digest, same: Installer): Installer
    requires t.path in w.dest
  {
    if Identical(w.dest[t.path], t.content, sha) then same else i.(status := Refused)
  }

  function Step(e: Event, w: World, sha: Digest): World {
    if e.pid !in w.installers then w
    else
      var i := w.installers[e.pid];
      if i.status != Running || i.at >= |i.plan| then w
      else if e.Crash? then w.(installers := w.installers[e.pid := i.(status := Dead)])
      else
        var t := i.plan[i.at];
        var temp := Temp(t.path, e.pid);
        match i.pc
        case Checking =>
          w.(installers := w.installers[e.pid :=
            if t.path in w.dest then Compare(w, i, t, sha, Next(i)) else i.(pc := Opening)])
        case Opening =>
          if temp in w.temps then w.(installers := w.installers[e.pid := i.(status := Refused)])
          else w.(temps := w.temps[temp := []], installers := w.installers[e.pid := i.(pc := Writing(0))])
        case Writing(n) =>
          if n >= |t.content| then w.(installers := w.installers[e.pid := i.(pc := Linking)])
          else
            var m := if n + 1 + e.chunk < |t.content| then n + 1 + e.chunk else |t.content|;
            w.(temps := w.temps[temp := t.content[..m]], installers := w.installers[e.pid := i.(pc := Writing(m))])
        case Linking =>
          if t.path in w.dest then
            w.(installers := w.installers[e.pid := Compare(w, i, t, sha, i.(pc := Closing))],
               temps := if Identical(w.dest[t.path], t.content, sha) then w.temps else w.temps - {temp})
          else if temp in w.temps then
            w.(dest := w.dest[t.path := w.temps[temp]], installers := w.installers[e.pid := i.(pc := Unlinking)])
          else w.(installers := w.installers[e.pid := i.(status := Refused)])
        case Unlinking => w.(temps := w.temps - {temp}, installers := w.installers[e.pid := Next(i)])
        case Closing => w.(temps := w.temps - {temp}, installers := w.installers[e.pid := Next(i)])
  }

  function Steps(es: seq<Event>, w: World, sha: Digest): World {
    if es == [] then w else Step(es[|es| - 1], Steps(es[..|es| - 1], w, sha), sha)
  }

  /** Processes about to start, whatever is at their destinations and scratch paths. */
  predicate Initial(w: World) {
    forall p | p in w.installers ::
      var i := w.installers[p]; |i.plan| == 3 && i.at == 0 && i.pc == Checking && i.status == Running
  }

  /** The file at `t.path` is there and hashes like the bytes this installer read. */
  predicate Installed(w: World, t: Target, sha: Digest) {
    t.path in w.dest && sha(w.dest[t.path]) == sha(t.content)
  }

  /** Target `k` of installer `p` is what was linked at its path. */
  predicate LinkedBy(w: World, p: int, k: nat, path: string) {
    && p in w.installers && k < |w.installers[p].plan| && path in w.dest
    && w.installers[p].plan[k] == Target(path, w.dest[path])
    && k <= w.installers[p].at
  }

  predicate Progress(i: Installer, p: int, w: World, sha: Digest) {
    && |i.plan| == 3
    && (forall k | 0 <= k < i.at && k < 3 :: Installed(w, i.plan[k], sha))
    && (i.status == Done ==> i.at >= 3)
    && (i.at < 3 && i.status == Running ==>
          var t := i.plan[i.at];
          match i.pc
          case Writing(n) =>
            n <= |t.content| && Temp(t.path, p) in w.temps && w.temps[Temp(t.path, p)] == t.content[..n]
          case Linking => Temp(t.path, p) in w.temps && w.temps[Temp(t.path, p)] == t.content
          case Unlinking => Installed(w, t, sha)
          case Closing => Installed(w, t, sha)
          case _ => true)
  }

  /** `initially` are the destinations at the start: what is there is one of them, or was linked since. */
  ghost predicate Invariant(w: World, sha: Digest, initially: set<string>) {
    && (forall p | p in w.installers :: Progress(w.installers[p], p, w, sha))
    && (forall path | path in w.dest && path !in initially :: exists p, k: nat :: LinkedBy(w, p, k, path))
  }

  /** Destinations only appear; what is there stays byte for byte. */
  predicate Grows(a: World, b: World) {
    forall path | path in a.dest :: path in b.dest && b.dest[path] == a.dest[path]
  }

  lemma StepGrows(e: Event, w: World, sha: Digest)
    ensures Grows(w, Step(e, w, sha))
  {
  }

  lemma OthersProgress(e: Event, w: World, sha: Digest, q: int)
    requires q in w.installers && q != e.pid && Progress(w.installers[q], q, w, sha)
    ensures var x := Step(e, w, sha);
            (q in x.installers && x.installers[q] == w.installers[q] && Progress(x.installers[q], q, x, sha))
  {
    StepGrows(e, w, sha);
  }

  lemma OwnProgress(e: Event, w: World, sha: Digest)
    requires e.pid in w.installers && Progress(w.installers[e.pid], e.pid, w, sha)
    ensures var x := Step(e, w, sha);
            && e.pid in x.installers && x.installers[e.pid].plan == w.installers[e.pid].plan
            && x.installers[e.pid].at >= w.installers[e.pid].at
            && Progress(x.installers[e.pid], e.pid, x, sha)
  {
    StepGrows(e, w, sha);
  }

  lemma LinkStays(e: Event, w: World, sha: Digest, p: int, k: nat, path: string)
    requires LinkedBy(w, p, k, path) && Progress(w.installers[p], p, w, sha)
    ensures LinkedBy(Step(e, w, sha), p, k, path)
  {
    StepGrows(e, w, sha);
    if p == e.pid { OwnProgress(e, w, sha); } else { OthersProgress(e, w, sha, p); }
  }

  lemma StepKeepsInvariant(e: Event, w: World, sha: Digest, initially: set<string>)
    requires Invariant(w, sha, initially)
    ensures Invariant(Step(e, w, sha), sha, initially)
  {
    var x := Step(e, w, sha);
    forall q | q in x.installers ensures Progress(x.installers[q], q, x, sha) {
      if q == e.pid { OwnProgress(e, w, sha); } else { OthersProgress(e, w, sha, q); }
    }
    forall path | path in x.dest && path !in initially ensures exists p, k: nat :: LinkedBy(x, p, k, path) {
      if path in w.dest {
        var p, k: nat :| LinkedBy(w, p, k, path);
        LinkStays(e, w, sha, p, k, path);
      } else {
        assert LinkedBy(x, e.pid, w.installers[e.pid].at, path);
      }
    }
  }

  lemma {:induction false} InvariantAlways(es: seq<Event>, w: World, sha: Digest)
    requires Initial(w)
    ensures Invariant(Steps(es, w, sha), sha, w.dest.Keys)
  {
    if es != [] {
      InvariantAlways(es[..|es| - 1], w, sha);
      StepKeepsInvariant(es[|es| - 1], Steps(es[..|es| - 1], w, sha), sha, w.dest.Keys);
    }
  }

  /** If file `k` of installer `p` is its manifest, the two files it names are there as read. */
  predicate Backed(w: World, p: int, k: nat, sha: Digest) {
    p in w.installers && |w.installers[p].plan| == 3
    && (k == 2 ==> Installed(w, w.installers[p].plan[0], sha) && Installed(w, w.installers[p].plan[1], sha))
  }

  lemma {:induction false} GrowsFromStart(es: seq<Event>, w: World, sha: Digest)
    ensures Grows(w, Steps(es, w, sha))
  {
    hide Step;
    if es != [] {
      GrowsFromStart(es[..|es| - 1], w, sha);
      StepGrows(es[|es| - 1], Steps(es[..|es| - 1], w, sha), sha);
    }
  }

  /** All or nothing: in every interleaving and however many installers die, a destination that was there at the
      start is as it was, and any other holds the complete bytes one installer read for it; if that file is an
      installer's manifest, both evidence files it names are present and hash like the bytes read; and a finished
      installer's files all are. */
  lemma AllOrNothing(es: seq<Event>, w0: World, sha: Digest)
    requires Initial(w0)
    ensures var w := Steps(es, w0, sha);
      && Grows(w0, w)
      && (forall path | path in w.dest && path !in w0.dest ::
            exists p, k: nat :: LinkedBy(w, p, k, path) && Backed(w, p, k, sha))
      && (forall p | p in w.installers && w.installers[p].status == Done ::
            forall k | 0 <= k < |w.installers[p].plan| :: Installed(w, w.installers[p].plan[k], sha))
  {
    InvariantAlways(es, w0, sha);
    GrowsFromStart(es, w0, sha);
    var w := Steps(es, w0, sha);
    forall path | path in w.dest && path !in w0.dest
      ensures exists p, k: nat :: LinkedBy(w, p, k, path) && Backed(w, p, k, sha)
    {
      var p, k: nat :| LinkedBy(w, p, k, path);
      assert Progress(w.installers[p], p, w, sha);
    }
    forall p | p in w.installers && w.installers[p].status == Done
      ensures forall k | 0 <= k < |w.installers[p].plan| :: Installed(w, w.installers[p].plan[k], sha)
    {
      assert Progress(w.installers[p], p, w, sha);
    }
  }

  /** Write-once over whole runs. */
  lemma {:induction false} WriteOnce(before: seq<Event>, later: seq<Event>, w: World, sha: Digest)
    ensures Grows(Steps(before, w, sha), Steps(before + later, w, sha))
    decreases |later|
  {
    if later == [] {
      assert before + later == before;
    } else {
      var init := later[..|later| - 1];
      WriteOnce(before, init, w, sha);
      assert (before + later)[..|before + later| - 1] == before + init;
      StepGrows(later[|later| - 1], Steps(before + init, w, sha), sha);
    }
  }

  lemma PlanStays(e: Event, w: World, sha: Digest, p: int)
    requires p in w.installers
    ensures p in Step(e, w, sha).installers && Step(e, w, sha).installers[p].plan == w.installers[p].plan
  {
  }

  lemma {:induction false} PlansStay(es: seq<Event>, w: World, sha: Digest, p: int)
    requires p in w.installers
    ensures p in Steps(es, w, sha).installers && Steps(es, w, sha).installers[p].plan == w.installers[p].plan
  {
    hide Step;
    if es != [] {
      PlansStay(es[..|es| - 1], w, sha, p);
      PlanStays(es[|es| - 1], Steps(es[..|es| - 1], w, sha), sha, p);
    }
  }

  /** Different content is refused: once a destination holds other bytes (as far as the digest can tell), an
      installer that was to put its own there never finishes. */
  lemma DifferentContentNeverFinishes(before: seq<Event>, later: seq<Event>, w0: World, sha: Digest, p: int, k: nat)
    requires Initial(w0) && p in w0.installers && k < 3
    requires var t, w := w0.installers[p].plan[k], Steps(before, w0, sha);
             t.path in w.dest && sha(w.dest[t.path]) != sha(t.content)
    ensures var end := Steps(before + later, w0, sha).installers; p in end && end[p].status != Done
  {
    PlansStay(before + later, w0, sha, p);
    WriteOnce(before, later, w0, sha);
    AllOrNothing(before + later, w0, sha);
  }

  // ---------------------------------------------------------------- every installer gets through

  lemma {:induction false} StepsConcat(a: seq<Event>, b: seq<Event>, w: World, sha: Digest)
    ensures Steps(a + b, w, sha) == Steps(b, Steps(a, w, sha), sha)
    decreases |b|
  {
    hide Step;
    if b == [] {
      assert a + b == a;
    } else {
      assert (a + b)[..|a + b| - 1] == a + b[..|b| - 1];
      StepsConcat(a, b[..|b| - 1], w, sha);
    }
  }

  lemma OneStep(e: Event, w: World, sha: Digest)
    ensures Steps([e], w, sha) == Step(e, w, sha)
  {
    assert [e][..0] == [];
  }

  /** `n` steps of one process, each writing as much as there is. */
  function Own(p: int, n: nat, chunk: nat): seq<Event> { seq(n, _ => Advance(p, chunk)) }

  lemma OwnOneMore(p: int, n: nat, chunk: nat, w: World, sha: Digest)
    ensures Steps(Own(p, n + 1, chunk), w, sha) == Step(Advance(p, chunk), Steps(Own(p, n, chunk), w, sha), sha)
  {
    assert Own(p, n + 1, chunk)[..n] == Own(p, n, chunk);
  }

  predicate Busy(w: World, p: int, pc: Pc) {
    p in w.installers
    && var i := w.installers[p]; i.status == Running && i.pc == pc && i.at < |i.plan|
  }

  predicate About(w: World, p: int) { Busy(w, p, Checking) }

  function At(w: World, p: int): Target
    requires p in w.installers && w.installers[p].at < |w.installers[p].plan|
  {
    w.installers[p].plan[w.installers[p].at]
  }

  /** The world with this much in place, and process `p` at this point. */
  function With(w: World, p: int, dest: map<string, Bytes>, temps: map<Temp, Bytes>, pc: Pc): World
    requires p in w.installers
  {
    World(dest, temps, w.installers[p := w.installers[p].(pc := pc)])
  }

  lemma Opens(w: World, p: int, c: nat, sha: Digest)
    requires Busy(w, p, Checking) && At(w, p).path !in w.dest
    ensures Step(Advance(p, c), w, sha) == With(w, p, w.dest, w.temps, Opening)
  {
  }

  lemma Creates(w: World, p: int, c: nat, sha: Digest)
    requires Busy(w, p, Opening) && Temp(At(w, p).path, p) !in w.temps
    ensures Step(Advance(p, c), w, sha) == With(w, p, w.dest, w.temps[Temp(At(w, p).path, p) := []], Writing(0))
  {
  }

  lemma Writes(w: World, p: int, c: nat, sha: Digest)
    requires Busy(w, p, Writing(0)) && c == |At(w, p).content| > 0
    ensures Step(Advance(p, c), w, sha)
         == With(w, p, w.dest, w.temps[Temp(At(w, p).path, p) := At(w, p).content], Writing(c))
  {
    assert At(w, p).content[..c] == At(w, p).content;
  }

  lemma Ends(w: World, p: int, c: nat, sha: Digest)
    requires p in w.installers && w.installers[p].at < |w.installers[p].plan|
    requires Busy(w, p, Writing(|At(w, p).content|))
    ensures Step(Advance(p, c), w, sha) == With(w, p, w.dest, w.temps, Linking)
  {
  }

  lemma Links(w: World, p: int, c: nat, sha: Digest)
    requires Busy(w, p, Linking) && At(w, p).path !in w.dest
    requires Temp(At(w, p).path, p) in w.temps && w.temps[Temp(At(w, p).path, p)] == At(w, p).content
    ensures Step(Advance(p, c), w, sha) == With(w, p, w.dest[At(w, p).path := At(w, p).content], w.temps, Unlinking)
  {
  }

  lemma Unlinks(w: World, p: int, c: nat, sha: Digest)
    requires Busy(w, p, Unlinking)
    ensures Step(Advance(p, c), w, sha)
         == World(w.dest, w.temps - {Temp(At(w, p).path, p)}, w.installers[p := Next(w.installers[p])])
  {
  }

  lemma CreatesScratch(w: World, p: int, c: nat, sha: Digest)
    requires About(w, p)
    requires var t := At(w, p); t.path !in w.dest && Temp(t.path, p) !in w.temps
    ensures Steps(Own(p, 2, c), w, sha) == With(w, p, w.dest, w.temps[Temp(At(w, p).path, p) := []], Writing(0))
  {
    hide Step, Steps, Own;
    NothingOwn(p, c, w, sha);
    OwnOneMore(p, 0, c, w, sha);
    OwnOneMore(p, 1, c, w, sha);
    Opens(w, p, c, sha);
    var w1 := With(w, p, w.dest, w.temps, Opening);
    Creates(w1, p, c, sha);
    var made := w.temps[Temp(At(w, p).path, p) := []];
    assert With(w1, p, w.dest, made, Writing(0)) == With(w, p, w.dest, made, Writing(0));
  }

  /** The scratch file is created and written. */
  lemma WritesOut(w: World, p: int, sha: Digest)
    requires About(w, p)
    requires var t := At(w, p); t.path !in w.dest && Temp(t.path, p) !in w.temps
    ensures var t := At(w, p);
            Steps(Own(p, if t.content == [] then 3 else 4, |t.content|), w, sha)
            == With(w, p, w.dest, w.temps[Temp(t.path, p) := t.content], Linking)
  {
    hide Step, Steps, Own;
    var t, c := At(w, p), |At(w, p).content|;
    var temp := Temp(t.path, p);
    CreatesScratch(w, p, c, sha);
    OwnOneMore(p, 2, c, w, sha);
    OwnOneMore(p, 3, c, w, sha);
    var w2 := With(w, p, w.dest, w.temps[temp := []], Writing(0));
    var full := w.temps[temp := t.content];
    if t.content == [] {
      Ends(w2, p, c, sha);
      assert With(w2, p, w.dest, w2.temps, Linking) == With(w, p, w.dest, full, Linking);
    } else {
      Writes(w2, p, c, sha);
      var w3 := With(w, p, w.dest, full, Writing(c));
      assert w2.temps[temp := t.content] == full;
      assert With(w2, p, w.dest, full, Writing(c)) == w3;
      Ends(w3, p, c, sha);
      assert With(w3, p, w.dest, full, Linking) == With(w, p, w.dest, full, Linking);
    }
  }

  lemma NothingOwn(p: int, chunk: nat, w: World, sha: Digest)
    ensures Steps(Own(p, 0, chunk), w, sha) == w
  {
  }

  /** A free destination: the file is opened, written, linked, and its scratch name removed. */
  lemma FreeTargetInstalls(w: World, p: int, sha: Digest)
    requires About(w, p)
    requires var t := At(w, p); t.path !in w.dest && Temp(t.path, p) !in w.temps
    ensures var t := At(w, p);
            Steps(Own(p, if t.content == [] then 5 else 6, |t.content|), w, sha)
            == World(w.dest[t.path := t.content], w.temps, w.installers[p := Next(w.installers[p].(pc := Unlinking))])
  {
    hide Step, Steps, Own;
    var t, c := At(w, p), |At(w, p).content|;
    WritesOut(w, p, sha);
    var n := if t.content == [] then 3 else 4;
    OwnOneMore(p, n, c, w, sha);
    OwnOneMore(p, n + 1, c, w, sha);
    var full, linked := w.temps[Temp(t.path, p) := t.content], w.dest[t.path := t.content];
    var written := With(w, p, w.dest, full, Linking);
    Links(written, p, c, sha);
    var done := With(w, p, linked, full, Unlinking);
    assert With(written, p, linked, full, Unlinking) == done;
    Unlinks(done, p, c, sha);
    assert full - {Temp(t.path, p)} == w.temps;
    assert done.installers[p := Next(done.installers[p])]
        == w.installers[p := Next(w.installers[p].(pc := Unlinking))];
  }

  /** What the installer needs of the file at its `k`-th place. */
  predicate Ready(w: World, p: int, k: nat, sha: Digest)
    requires p in w.installers && k < |w.installers[p].plan|
  {
    var t := w.installers[p].plan[k];
    if t.path in w.dest then |w.dest[t.path]| <= 64 * 1024 * 1024 && sha(w.dest[t.path]) == sha(t.content)
    else Temp(t.path, p) !in w.temps
  }

  predicate DistinctPaths(plan: seq<Target>) { forall j, k | 0 <= j < k < |plan| :: plan[j].path != plan[k].path }

  /** One target: the installer moves on, its scratch name is as before, and a free destination holds its bytes. */
  lemma TargetGetsDone(w: World, p: int, sha: Digest) returns (es: seq<Event>)
    requires About(w, p) && Ready(w, p, w.installers[p].at, sha)
    ensures forall e | e in es :: e.Advance? && e.pid == p
    ensures var x, i, t := Steps(es, w, sha), w.installers[p], At(w, p);
            && x.temps == w.temps && x.dest == (if t.path in w.dest then w.dest else w.dest[t.path := t.content])
            && p in x.installers && x.installers[p].plan == i.plan && x.installers[p].at == i.at + 1
            && (if i.at + 1 < |i.plan| then About(x, p) else x.installers[p].status == Done)
  {
    var t := At(w, p);
    if t.path in w.dest {
      es := [Advance(p, 0)];
      OneStep(es[0], w, sha);
    } else {
      es := Own(p, if t.content == [] then 5 else 6, |t.content|);
      FreeTargetInstalls(w, p, sha);
      hide Step, Steps;
    }
  }

  /** Whatever the others have done, an installer whose destinations are free or already identical finishes by its own
      steps, and what was free then holds its bytes. */
  lemma {:induction false} ReadyInstallerFinishes(w: World, p: int, sha: Digest) returns (es: seq<Event>)
    requires About(w, p) && DistinctPaths(w.installers[p].plan)
    requires forall k | w.installers[p].at <= k < |w.installers[p].plan| :: Ready(w, p, k, sha)
    ensures forall e | e in es :: e.Advance? && e.pid == p
    ensures var x, plan := Steps(es, w, sha), w.installers[p].plan;
            && p in x.installers && x.installers[p].status == Done
            && forall k | w.installers[p].at <= k < |plan| && plan[k].path !in w.dest ::
                 plan[k].path in x.dest && x.dest[plan[k].path] == plan[k].content
    decreases |w.installers[p].plan| - w.installers[p].at
  {
    hide Step, Steps, Own;
    var i := w.installers[p];
    es := TargetGetsDone(w, p, sha);
    var x := Steps(es, w, sha);
    if i.at + 1 < |i.plan| {
      forall k | i.at + 1 <= k < |i.plan| ensures Ready(x, p, k, sha) { assert Ready(w, p, k, sha); }
      var rest := ReadyInstallerFinishes(x, p, sha);
      StepsConcat(es, rest, w, sha);
      GrowsFromStart(rest, x, sha);
      es := es + rest;
    }
  }

  /** From nothing at all: three files at three paths are installed, and they are all there is. */
  lemma InstallsFromScratch(p: int, plan: seq<Target>, sha: Digest) returns (es: seq<Event>)
    requires |plan| == 3 && forall j, k | 0 <= j < k < |plan| :: plan[j].path != plan[k].path
    ensures var w := World(map[], map[], map[p := Installer(plan, 0, Checking, Running)]);
            var x := Steps(es, w, sha);
            && Initial(w) && p in x.installers && x.installers[p].status == Done
            && forall k | 0 <= k < 3 :: plan[k].path in x.dest && x.dest[plan[k].path] == plan[k].content
  {
    var w := World(map[], map[], map[p := Installer(plan, 0, Checking, Running)]);
    es := ReadyInstallerFinishes(w, p, sha);
  }

  /** An installer that finds its destination there, at its first look or when it links: with content of the same
      digest it goes on, with any other it is refused; the destination stays as it is, and a scratch file made for it
      is removed. */
  lemma MeetsExisting(w: World, p: int, sha: Digest)
    requires Busy(w, p, Checking) || Busy(w, p, Linking)
    requires At(w, p).path in w.dest
    ensures var t, i, x := At(w, p), w.installers[p], Step(Advance(p, 0), w, sha);
            var same := |w.dest[t.path]| <= 64 * 1024 * 1024 && sha(w.dest[t.path]) == sha(t.content);
            && x.dest == w.dest && p in x.installers
            && (!same ==>
                  && x.installers[p] == i.(status := Refused)
                  && x.temps == if i.pc == Checking then w.temps else w.temps - {Temp(t.path, p)})
            && (same && i.pc == Checking ==> x.installers[p] == Next(i) && x.temps == w.temps)
            && (same && i.pc == Linking ==>
                  var y := Step(Advance(p, 0), x, sha);
                  && y.dest == w.dest && y.temps == w.temps - {Temp(t.path, p)}
                  && p in y.installers && y.installers[p] == Next(i.(pc := Closing)))
  {
  }

  /** A write may be as short as it likes: every longer prefix is what some write leaves. */
  lemma AnyShortWrite(w: World, p: int, n: nat, m: nat, sha: Digest)
    requires Busy(w, p, Writing(n)) && n < m <= |At(w, p).content|
    ensures Step(Advance(p, m - n - 1), w, sha)
         == With(w, p, w.dest, w.temps[Temp(At(w, p).path, p) := At(w, p).content[..m]], Writing(m))
  {
  }

  /** A scratch file that is not its own stops an installer before it writes anything. */
  lemma OccupiedScratchIsRefused(w: World, p: int, chunk: nat, sha: Digest)
    requires Busy(w, p, Opening) && Temp(At(w, p).path, p) in w.temps
    ensures Step(Advance(p, chunk), w, sha)
         == w.(installers := w.installers[p := w.installers[p].(status := Refused)])
  {
  }

  /** A killed installer does nothing more. */
  lemma {:induction false} DeadStaysDead(later: seq<Event>, w: World, p: int, sha: Digest)
    requires p in w.installers && w.installers[p].status == Running && w.installers[p].at < |w.installers[p].plan|
    ensures var x := Steps([Crash(p)] + later, w, sha);
            p in x.installers && x.installers[p] == w.installers[p].(status := Dead)
    decreases |later|
  {
    if later == [] {
      assert [Crash(p)] + later == [Crash(p)];
      OneStep(Crash(p), w, sha);
    } else {
      assert ([Crash(p)] + later)[..|later|] == [Crash(p)] + later[..|later| - 1];
      DeadStaysDead(later[..|later| - 1], w, p, sha);
    }
  }

  datatype Read = Content(bytes: Bytes) | TooLarge | Changed

  /** `_read_source`: `size` is what fstat said, `file` what the reads find, each read returning at most
      `limits[i] + 1` bytes. */
  method ReadSource(file: Bytes, size: nat, limits: seq<nat>) returns (r: Read)
    ensures r == if size > MAX_EVIDENCE_BYTES then TooLarge
                 else if |file| < size then Changed
                 else Content(file[..size])
  {
    if size > MAX_EVIDENCE_BYTES { return TooLarge; }
    var chunks: Bytes, remaining, calls := [], size, 0;
    while remaining > 0
      invariant 0 <= remaining <= size && |chunks| == size - remaining <= |file| && chunks == file[..|chunks|]
      decreases remaining
    {
      var most := if remaining < 1048576 then remaining else 1048576;
      if calls < |limits| && limits[calls] + 1 < most { most := limits[calls] + 1; }
      var offset := |chunks|;
      var chunk := file[offset..if offset + most < |file| then offset + most else |file|];
      if chunk == [] {
        assert offset == |file|;
        return Changed;
      }
      chunks, remaining, calls := chunks + chunk, remaining - |chunk|, calls + 1;
    }
    r := Content(chunks);
  }

  /** The write loop of `_atomic_install`: however short the writes, the file ends up complete. */
  method WriteAll(content: Bytes, limits: seq<nat>) returns (temp: Bytes)
    ensures temp == content
  {
    temp := [];
    var offset, writes := 0, 0;
    while offset < |content|
      invariant offset <= |content| && temp == content[..offset]
    {
      var n := |content| - offset;
      if writes < |limits| && limits[writes] + 1 < n { n := limits[writes] + 1; }
      temp := temp + content[offset..offset + n];
      offset, writes := offset + n, writes + 1;
    }
  }
}
