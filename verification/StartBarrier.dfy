/** The start barrier: broker, child and recovery interleave freely, and any of them may stop at any time. */
module StartBarrier {
  import opened Host
  import opened Options

  /** The child runs the barrier script until it replaces itself with runsc.  `durable` is the journal at
      the moment of the exec. */
  datatype Child =
    | Absent
    | Blocked(id: Identity)    // in read(release_fd)
    | Released(id: Identity)   // has read the byte
    | Execd(id: Identity, durable: Option<Record>)
    | Exited(id: Identity)

  datatype Pc =
    | Idle | Spawned | Identified(seen: Identity) | Announced | Written | Waiting
    | Failing | Failed | Finished | Dead

  datatype World = World(pc: Pc, child: Child, writeEnd: bool, byte: bool, journal: Option<Record>)

  datatype Event =
    | Spawn(id: Identity)      // pipe, fork, parent closes its read end
    | Identify                 // read /proc/<pid>/stat
    | IdentifyFails
    | Announce                 // durable `running` record
    | AnnounceFails            // before the replace
    | AnnounceFailsLate        // after it
    | WriteByte
    | WriteFails
    | CloseEnd
    | Abandon                  // the exception path closes the pipe ...
    | Terminate                // ... and terminates the child's group
    | TimeOut                  // communicate() did not return in time: the child's group is terminated
    | Finish(exitCode: int)    // communicate() returned: the final record
    | Crash
    | ChildReads | ChildExecs | ChildExits
    | Recover                  // another invocation finalizes and removes the journal

  function RunningRecord(base: Record, id: Identity): Record {
    base.(phase := Host.Running, runner := Some(id))
  }

  function Initial(base: Record): World { World(Idle, Absent, false, false, Some(base)) }

  predicate Stopped(pc: Pc) { pc == Failed || pc == Finished || pc == Dead }

  function Step(e: Event, base: Record, w: World): World {
    match e
    case Spawn(id) =>
      if w.pc == Idle then w.(pc := Spawned, child := Blocked(id), writeEnd := true) else w
    case Identify =>
      if w.pc != Spawned then w
      else if w.child.Exited? || w.child.Absent? then w.(pc := Waiting, writeEnd := false)
      else w.(pc := Identified(w.child.id))
    case IdentifyFails =>
      if w.pc == Spawned && !w.child.Absent? then w.(pc := Failed, writeEnd := false, child := Exited(w.child.id))
        else w
    case Announce =>
      if w.pc.Identified? then w.(pc := Announced, journal := Some(RunningRecord(base, w.pc.seen))) else w
    case AnnounceFails => if w.pc.Identified? then w.(pc := Failing) else w
    case AnnounceFailsLate =>
      if w.pc.Identified? then w.(pc := Failing, journal := Some(RunningRecord(base, w.pc.seen))) else w
    case WriteByte => if w.pc == Announced then w.(pc := Written, byte := true) else w
    case WriteFails => if w.pc == Announced then w.(pc := Failing) else w
    case CloseEnd => if w.pc == Written then w.(pc := Waiting, writeEnd := false) else w
    case Abandon => if w.pc == Failing then w.(writeEnd := false) else w
    case Terminate =>
      if w.pc == Failing && !w.writeEnd && !w.child.Absent? then w.(pc := Failed, child := Exited(w.child.id)) else w
    case TimeOut =>
      if w.pc == Waiting && !w.child.Absent? then w.(pc := Failed, child := Exited(w.child.id)) else w
    case Finish(exitCode) =>
      if w.pc == Waiting && w.child.Exited? && w.journal.Some? then
        w.(pc := Finished,
           journal := Some(w.journal.value.(phase := if exitCode == 0 then RunFinished else RunFailed,
             terminal := if exitCode == 0 then Restore else Discard)))
      else w
    case Crash => if Stopped(w.pc) then w else w.(pc := Dead, writeEnd := false)
    case ChildReads =>
      if !w.child.Blocked? then w
      else if w.byte then w.(child := Released(w.child.id))
      else if !w.writeEnd then w.(child := Exited(w.child.id))
      else w
    case ChildExecs => if w.child.Released? then w.(child := Execd(w.child.id, w.journal)) else w
    case ChildExits => if w.child.Absent? then w else w.(child := Exited(w.child.id))
    case Recover =>
      // finalize terminates a recorded leader before it removes the record
      if Stopped(w.pc) && w.journal.Some? && (w.journal.value.runner.Some? ==> w.child.Absent? || w.child.Exited?)
      then w.(journal := None) else w
  }

  function Steps(es: seq<Event>, base: Record, w: World): World {
    if es == [] then w else Step(es[|es| - 1], base, Steps(es[..|es| - 1], base, w))
  }

  predicate Recorded(w: World, base: Record) {
    w.child.Absent? || w.journal == Some(RunningRecord(base, w.child.id))
  }

  ghost predicate Invariant(w: World, base: Record) {
    && (w.pc == Idle ==> w.child.Absent?)
    && (w.child.Absent? ==> w.pc == Idle || w.pc == Dead)
    && (!Stopped(w.pc) ==> w.journal.Some?) && (w.pc == Idle || w.pc == Spawned ==> w.journal == Some(base))
    && (w.pc.Identified? ==> !w.child.Absent? && w.pc.seen == w.child.id)
    && (w.pc == Announced ==> Recorded(w, base))
    && (w.byte ==> w.pc == Written || w.pc == Waiting || Stopped(w.pc))
    && (w.byte && w.child.Blocked? ==> Recorded(w, base))
    && (w.child.Released? || w.child.Execd? ==> w.byte && Recorded(w, base))
    && (w.child.Execd? ==> w.child.durable == Some(RunningRecord(base, w.child.id)))
    && (w.pc == Waiting || Stopped(w.pc) ==> !w.writeEnd)
    && (w.pc == Spawned || w.pc.Identified? || w.pc == Announced ==> w.writeEnd)
  }

  lemma StepKeepsInvariant(e: Event, base: Record, w: World)
    requires Invariant(w, base)
    ensures Invariant(Step(e, base, w), base)
  {
  }

  /** runsc is never started without a durable `running` record that names exactly this child, and the
      record stays for as long as the sandbox lives, in every interleaving. */
  lemma {:induction false} ExecOnlyWhenRecorded(es: seq<Event>, base: Record)
    ensures var w := Steps(es, base, Initial(base));
            && Invariant(w, base)
            && (w.child.Execd? ==>
                  && w.child.durable == Some(base.(phase := Host.Running, runner := Some(w.child.id)))
                  && w.journal == w.child.durable)
  {
    if es != [] {
      ExecOnlyWhenRecorded(es[..|es| - 1], base);
      StepKeepsInvariant(es[|es| - 1], base, Steps(es[..|es| - 1], base, Initial(base)));
    }
  }

  /** The broker is past the point where it could still release the child, and has not. */
  predicate Withheld(w: World) {
    && !w.byte && !w.child.Released? && !w.child.Execd?
    && (w.pc == Failing || Stopped(w.pc))
  }

  /** If the broker dies or fails before it writes the byte, no continuation ever starts runsc, and the
      closed pipe makes the child's next read its last step. */
  lemma {:induction false} WithheldForEver(es: seq<Event>, base: Record, w: World)
    requires Invariant(w, base) && Withheld(w)
    ensures var x := Steps(es, base, w);
            && Withheld(x) && Invariant(x, base)
            && !x.byte && !x.child.Released? && !x.child.Execd?
            && (Stopped(x.pc) && x.child.Blocked? ==> Step(ChildReads, base, x).child.Exited?)
  {
    if es != [] {
      WithheldForEver(es[..|es| - 1], base, w);
      StepKeepsInvariant(es[|es| - 1], base, Steps(es[..|es| - 1], base, w));
    }
  }

  /** Each way of failing leads there from every reachable state before the byte where it is open.  A failing broker
      then ends the child; a dead one leaves it a closed pipe, at which its read ends it.  The record is the one
      before, or the running one if the failure came after it. */
  lemma FailureWithholds(es: seq<Event>, base: Record, e: Event)
    requires var w := Steps(es, base, Initial(base));
             && !w.byte
             && (|| (e == IdentifyFails && w.pc == Spawned)
                 || ((e == AnnounceFails || e == AnnounceFailsLate) && w.pc.Identified?)
                 || (e == WriteFails && w.pc == Announced)
                 || (e == Crash && (w.pc == Spawned || w.pc.Identified? || w.pc == Announced || w.pc == Failing)))
    ensures var w := Steps(es, base, Initial(base));
            var x := Step(e, base, w);
            && Withheld(x) && Invariant(x, base) && !w.child.Absent?
            && x.journal == (if e == AnnounceFailsLate then Some(RunningRecord(base, w.child.id)) else w.journal)
            && (e != Crash ==>
                  Step(Terminate, base, Step(Abandon, base, x))
                  == World(Failed, Exited(w.child.id), false, false, x.journal))
            && (e == Crash ==>
                  x == w.(pc := Dead, writeEnd := false)
                  && (w.child.Blocked? ==> Step(ChildReads, base, x).child == Exited(w.child.id)))
  {
    ExecOnlyWhenRecorded(es, base);
    StepKeepsInvariant(e, base, Steps(es, base, Initial(base)));
  }

  /** A child that is gone before it could be identified was never recorded as running; its run still ends with a
      final record. */
  lemma ExitedBeforeIdentified(es: seq<Event>, base: Record, exitCode: int)
    requires var w := Steps(es, base, Initial(base)); w.pc == Spawned && w.child.Exited?
    ensures var w := Steps(es, base, Initial(base));
            var x := Step(Finish(exitCode), base, Step(Identify, base, w));
            && x.pc == Finished && !x.writeEnd
            && x.journal == Some(base.(phase := if exitCode == 0 then RunFinished else RunFailed,
                                       terminal := if exitCode == 0 then Restore else Discard))
  {
    ExecOnlyWhenRecorded(es, base);
  }

  // ---------------------------------------------------------------- and every run gets through

  lemma StepsOneMore(es: seq<Event>, e: Event, base: Record, w: World)
    ensures Steps(es + [e], base, w) == Step(e, base, Steps(es, base, w))
  {
    assert (es + [e])[..|es|] == es;
  }

  /** The broker's own steps up to the durable record. */
  lemma ReachesAnnounced(base: Record, id: Identity)
    ensures Steps([Spawn(id)] + [Identify] + [Announce], base, Initial(base))
         == World(Announced, Blocked(id), true, false, Some(RunningRecord(base, id)))
  {
    var w := Initial(base);
    StepsOneMore([], Spawn(id), base, w);
    assert [] + [Spawn(id)] == [Spawn(id)];
    StepsOneMore([Spawn(id)], Identify, base, w);
    StepsOneMore([Spawn(id)] + [Identify], Announce, base, w);
  }

  /** The child reads and execs; the broker closes its end before, between or after. */
  function Release(k: nat): seq<Event>
    requires k <= 2
  {
    [WriteByte]
    + (if k == 0 then [CloseEnd] else []) + [ChildReads]
    + (if k == 1 then [CloseEnd] else []) + [ChildExecs]
    + (if k == 2 then [CloseEnd] else [])
  }

  /** From every reachable world where the record is durable and the child waits: its read blocks; once the byte is
      written the child execs under that record wherever the close falls, and the run's final record restores exactly
      for exit code 0. */
  lemma ReleasedChildRuns(es: seq<Event>, base: Record, k: nat, exitCode: int)
    requires k <= 2
    requires var w := Steps(es, base, Initial(base)); w.pc == Announced && w.child.Blocked?
    ensures var w := Steps(es, base, Initial(base));
            var running := RunningRecord(base, w.child.id);
            var x := Steps(Release(k), base, w);
            && Step(ChildReads, base, w) == w
            && x == World(Waiting, Execd(w.child.id, Some(running)), false, true, Some(running))
            && var y := Step(Finish(exitCode), base, Step(ChildExits, base, x));
               && y.pc == Finished && y.child == Exited(w.child.id)
               && y.journal == Some(running.(phase := if exitCode == 0 then RunFinished else RunFailed,
                                             terminal := if exitCode == 0 then Restore else Discard))
  {
    ExecOnlyWhenRecorded(es, base);
    var w := Steps(es, base, Initial(base));
    hide Steps;
    ReleaseUnfolds(k, base, w);
  }

  lemma ReleaseUnfolds(k: nat, base: Record, w: World)
    requires k <= 2
    ensures Steps(Release(k), base, w)
         == (var r := Release(k); Step(r[3], base, Step(r[2], base, Step(r[1], base, Step(r[0], base, w)))))
  {
    hide Step, Steps;
    var r := Release(k);
    FourSteps(r[0], r[1], r[2], r[3], base, w);
    assert r == [r[0], r[1], r[2], r[3]];
  }

  lemma FourSteps(a: Event, b: Event, c: Event, d: Event, base: Record, w: World)
    ensures Steps([a, b, c, d], base, w) == Step(d, base, Step(c, base, Step(b, base, Step(a, base, w))))
  {
    hide Step;
    StepsOneMore([], a, base, w);
    StepsOneMore([a], b, base, w);
    StepsOneMore([a, b], c, base, w);
    StepsOneMore([a, b, c], d, base, w);
    assert [] + [a] == [a] && [a] + [b] == [a, b] && [a, b] + [c] == [a, b, c] && [a, b, c] + [d] == [a, b, c, d];
  }

  /** From every reachable world where the broker failed before the byte, or waits too long: it ends the child and
      leaves the record as it was; the next recovery then removes it. */
  lemma FailedRunIsCleared(es: seq<Event>, base: Record)
    requires var w := Steps(es, base, Initial(base)); w.pc == Failing || w.pc == Waiting
    ensures var w := Steps(es, base, Initial(base));
            var x := if w.pc == Failing then Step(Terminate, base, Step(Abandon, base, w)) else Step(TimeOut, base, w);
            && !w.child.Absent? && x == World(Failed, Exited(w.child.id), false, w.byte, w.journal)
            && Step(Recover, base, x) == x.(journal := None)
  {
    ExecOnlyWhenRecorded(es, base);
  }
}
