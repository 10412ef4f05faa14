/** The broker's two custody operations as it performs them, call by call, on the disk they share. */
module Broker {
  import opened Custody
  import opened Host
  import opened Options
  import opened Recovery

  lemma ScrubOfOne(p: Path, parts: map<Path, Partial>)
    ensures Scrub([p], parts) == RmTree(p, parts)
  {
    assert [p][..0] == [];
    assert Scrub([], parts) + RmTree(p, parts) == RmTree(p, parts);
  }

  lemma ScrubOfTwo(p: Path, q: Path, parts: map<Path, Partial>)
    ensures Scrub([p, q], parts) == RmTree(p, parts) + RmTree(q, parts)
  {
    assert [p, q][..1] == [p];
    ScrubOfOne(p, parts);
  }

  lemma FinalizeSections(r: Record, w: World)
    ensures FinalizeProgram(r, w)
         == Verify(r, w) + (Prepare(r, w) + (Purge(r, w) + ([Settle(Early(r.phase))] + Close(w))))
  {
    hide Verify, Prepare, Purge, Close;
  }

  lemma FirstSection(todo: seq<Op>, a: seq<Op>, b: seq<Op>)
    requires todo == a + b
    ensures a <= todo && todo[|a|..] == b
  {
  }

  class Broker {
    var disk: Disk
    ghost var program: seq<Op>   // the calls of the operation under way
    ghost var start: Disk        // the disk it started from
    ghost var todo: seq<Op>      // the calls not yet made
    ghost var seen: seq<Disk>    // the disk after 0, 1, 2, ... of them: what each crash would leave

    ghost predicate OnTrack()
      reads this
    {
      var done := |program| - |todo|;
      && 0 <= done && program[done..] == todo && After(program[..done], start) == Attempt(disk, true)
      && |seen| == done + 1
      && forall k | 0 <= k <= done :: seen[k] == CrashedAt(program, start, k)
    }

    /** The operation ended: `ok`, or at the call that raised. */
    ghost predicate Ended(ok: bool)
      reads this
      ensures Ended(ok) ==> After(program, start) == Attempt(disk, ok)
    {
      && After(program, start) == Attempt(disk, ok)
      && 0 < |seen| <= |program| + 1 && (ok ==> |seen| == |program| + 1)
      && forall k | 0 <= k < |seen| :: seen[k] == CrashedAt(program, start, k)
    }

    constructor (d: Disk)
      ensures disk == d
    {
      disk := d;
      program, start, todo, seen := [], d, [], [];
    }

    ghost method Begin(ops: seq<Op>)
      modifies this`program, this`start, this`todo, this`seen
      ensures OnTrack() && program == todo == ops && start == disk
    {
      program, start, todo, seen := ops, disk, ops, [disk];
      assert ops[..0] == [];
    }

    method Call(op: Op) returns (ok: bool)
      requires OnTrack() && todo != [] && todo[0] == op
      modifies this
      ensures program == old(program) && start == old(start)
      ensures (disk, ok) == (Exec(op, old(disk)).disk, Exec(op, old(disk)).ok) && seen == old(seen) + [disk]
      ensures if ok then OnTrack() && todo == old(todo)[1..] else Ended(false)
    {
      var result := Exec(op, disk);
      disk, ok := result.disk, result.ok;
      ghost var done := |program| - |todo|;
      assert program[done] == program[done..][0];
      assert program[..done + 1][..done] == program[..done];
      if !ok { StopsAtRaise(program, start, done + 1); }
      todo, seen := todo[1..], seen + [disk];
    }

    lemma Finished()
      requires OnTrack() && todo == []
      ensures Ended(true)
    {
      assert program[..|program|] == program;
    }

    /** `_write_journal`.  On success the record is durable and the scratch file gone, nothing else moved, and a
        crash on the way finds the old record or the new one. */
    method WriteJournal(r: Record) returns (ok: bool)
      requires OnTrack() && [Scratch, Journal(r)] <= todo
      modifies this
      ensures program == old(program) && start == old(start)
      ensures ok ==> disk == old(disk).(journal := Some(r), scratch := false)
      ensures old(seen) <= seen && forall k | |old(seen)| <= k < |seen| ::
                seen[k].fs == old(disk).fs && (seen[k].journal == old(disk).journal || seen[k].journal == Some(r))
      ensures if ok then OnTrack() && todo == old(todo)[2..] else Ended(false)
    {
      hide OnTrack, Ended;
      ok := Call(Scratch);
      if ok { ok := Call(Journal(r)); }
    }

    /** A branch not taken: the program holds skips in the places of its calls, and nothing is called. */
    ghost method NotTaken(count: nat)
      requires OnTrack() && count <= |todo| && forall i | 0 <= i < count :: todo[i] == Skip
      modifies this`todo, this`seen
      ensures OnTrack() && todo == old(todo)[count..]
    {
      if count > 0 {
        ghost var done := |program| - |todo|;
        assert program[done] == program[done..][0];
        assert program[..done + 1][..done] == program[..done];
        todo, seen := todo[1..], seen + [disk];
        NotTaken(count - 1);
      }
    }

    method RemoveTree(p: Path, parts: map<Path, Partial>) returns (ok: bool)
      requires OnTrack() && RmTree(p, parts) <= todo
      modifies this
      ensures program == old(program) && start == old(start)
      ensures if ok then OnTrack() && todo == old(todo)[2..] else Ended(false)
    {
      hide OnTrack, Ended, Exec;
      ok := Call(Thin(p, if p in parts then parts[p] else Partial(EMPTY, {})));
      if ok { ok := Call(Remove(p)); }
    }

    ghost predicate On(ops: seq<Op>, from: Disk, at: nat)
      reads this
    {
      OnTrack() && program == ops && start == from && at <= |ops| && todo == ops[at..]
    }

    /** `run`.  A refused request changes nothing; an admitted one makes the calls of `RunProgram` in order.  On a
        filesystem it succeeds exactly for plain input and output directories, a proxy socket if one is asked for, no
        custody directory of that name, and a deadline still ahead; the record then restores exactly for exit code 0,
        and the input, the sandbox's output and the socket are staged. */
    method Run(job: Job) returns (ok: bool)
      modifies this
      ensures (forall p | p in old(disk).fs :: HasParent(p, old(disk).fs)) ==>
                (var fs := old(disk).fs;
                 ok <==>
                   && Input in fs && fs[Input].Dir? && Plain(fs[Input])
                   && Output in fs && fs[Output].Dir? && Plain(fs[Output])
                   && (job.hasProxy ==> Proxy in fs && fs[Proxy].Socket?)
                   && Staging !in fs && Bundle !in fs && State !in fs
                   && job.timely)
      ensures (forall p | p in old(disk).fs :: HasParent(p, old(disk).fs)) && ok ==>
                var finished := job.exitCode == 0;
                && disk.journal == Some(Record(if finished then RunFinished else RunFailed,
                                               if finished then Restore else Discard, job.hasProxy, Some(job.runner)))
                && Input !in disk.fs && StagedInput in disk.fs && disk.fs[StagedInput] == old(disk).fs[Input]
                && Output !in disk.fs && StagedOutput in disk.fs
                && disk.fs[StagedOutput] == Dir(job.written, job.inode)
                && (job.hasProxy ==>
                      Proxy !in disk.fs && StagedProxy in disk.fs && disk.fs[StagedProxy] == old(disk).fs[Proxy])
      ensures !Admissible(job, old(disk)) ==> !ok && disk == old(disk)
      ensures Admissible(job, old(disk)) ==> program == RunProgram(job) && start == old(disk) && Ended(ok)
    {
      hide OnTrack, Ended, RunProgram, Refuses, After;
      if !Admissible(job, disk) { return false; }
      ok := RunAdmitted(job);
      if Rooted(start.fs) { UncutRun(job, start); }
    }

    method RunAdmitted(job: Job) returns (ok: bool)
      requires Admissible(job, disk)
      modifies this
      ensures program == RunProgram(job) && start == old(disk) && Ended(ok)
    {
      hide OnTrack, Ended, Exec;
      Begin(RunProgram(job));
      var entry := Record(Prepared, Discard, job.hasProxy, None);
      ok := Announce(job, entry, disk);
      if ok { ok := MakeRoots(job, start); }
      if ok { ok := SealInput(job, entry, start); }
      if ok { ok := SealOutput(job, entry.(phase := InputSealed), start); }
      if ok { ok := CheckTrees(job, start); }
      if ok { ok := SealProxy(job, entry.(phase := OutputSealed), start); }
      if ok { ok := Configure(job, entry, start); }
      if ok { ok := Execute(job, entry, start); }
    }

    method Announce(job: Job, entry: Record, ghost from: Disk) returns (ok: bool)
      requires On(RunProgram(job), from, 0) && entry == Record(Prepared, Discard, job.hasProxy, None)
      modifies this
      ensures program == RunProgram(job) && start == from
      ensures if ok then On(RunProgram(job), from, 2) else Ended(false)
    {
      hide OnTrack, Ended, Exec;
      ok := WriteJournal(entry);
    }

    method MakeRoots(job: Job, ghost from: Disk) returns (ok: bool)
      requires On(RunProgram(job), from, 2)
      modifies this
      ensures program == RunProgram(job) && start == from
      ensures if ok then On(RunProgram(job), from, 5) else Ended(false)
    {
      hide OnTrack, Ended, Exec;
      ok := Call(Mkdir(Staging));                                   if !ok { return; }
      ok := Call(Mkdir(Bundle));                                    if !ok { return; }
      ok := Call(Mkdir(State));
    }

    method SealInput(job: Job, entry: Record, ghost from: Disk) returns (ok: bool)
      requires On(RunProgram(job), from, 5) && entry == Record(Prepared, Discard, job.hasProxy, None)
      modifies this
      ensures program == RunProgram(job) && start == from
      ensures if ok then On(RunProgram(job), from, 8) else Ended(false)
    {
      hide OnTrack, Ended, Exec;
      ok := Call(Move(Input, StagedInput));                         if !ok { return; }
      ok := WriteJournal(entry.(phase := InputSealed));
    }

    method SealOutput(job: Job, entry: Record, ghost from: Disk) returns (ok: bool)
      requires On(RunProgram(job), from, 8) && entry == Record(InputSealed, Discard, job.hasProxy, None)
      modifies this
      ensures program == RunProgram(job) && start == from
      ensures if ok then On(RunProgram(job), from, 11) else Ended(false)
    {
      hide OnTrack, Ended, Exec;
      ok := Call(Move(Output, StagedOutput));                       if !ok { return; }
      ok := WriteJournal(entry.(phase := OutputSealed));
    }

    method CheckTrees(job: Job, ghost from: Disk) returns (ok: bool)
      requires On(RunProgram(job), from, 11)
      modifies this
      ensures program == RunProgram(job) && start == from
      ensures if ok then On(RunProgram(job), from, 14) else Ended(false)
    {
      hide OnTrack, Ended, Exec;
      ok := Call(CheckDir(StagedInput));                            if !ok { return; }
      ok := Call(CheckPlain(StagedInput));                          if !ok { return; }
      ok := Call(CheckPlain(StagedOutput));
    }

    method SealProxy(job: Job, entry: Record, ghost from: Disk) returns (ok: bool)
      requires On(RunProgram(job), from, 14) && entry == Record(OutputSealed, Discard, job.hasProxy, None)
      modifies this
      ensures program == RunProgram(job) && start == from
      ensures if ok then On(RunProgram(job), from, 18) else Ended(false)
    {
      hide OnTrack, Ended, Exec;
      if job.hasProxy {
        ok := Call(Move(Proxy, StagedProxy));                       if !ok { return; }
        ok := Call(CheckSocket(StagedProxy));                       if !ok { return; }
        ok := WriteJournal(entry.(phase := ProxySealed));
      } else {
        NotTaken(4);
        ok := true;
      }
    }

    method Configure(job: Job, entry: Record, ghost from: Disk) returns (ok: bool)
      requires On(RunProgram(job), from, 18) && entry == Record(Prepared, Discard, job.hasProxy, None)
      modifies this
      ensures program == RunProgram(job) && start == from
      ensures if ok then On(RunProgram(job), from, 23) else Ended(false)
    {
      hide OnTrack, Ended, Exec;
      ok := Call(Put(JobFile, File([])));                           if !ok { return; }
      ok := Call(Gate(job.timely));                                 if !ok { return; }
      ok := Call(Put(ConfigFile, File([])));                        if !ok { return; }
      ok := WriteJournal(entry.(phase := Configured));
    }

    method Execute(job: Job, entry: Record, ghost from: Disk) returns (ok: bool)
      requires On(RunProgram(job), from, 23) && entry == Record(Prepared, Discard, job.hasProxy, None)
      modifies this
      ensures program == RunProgram(job) && start == from
      ensures Ended(ok)
    {
      hide OnTrack, Ended, Exec;
      var running := entry.(phase := Running, runner := Some(job.runner));
      ok := WriteJournal(running);                                  if !ok { return; }
      ok := Call(Put(StagedOutput, Dir(job.partial, job.inode)));   if !ok { return; }
      ok := Call(Put(StagedOutput, Dir(job.written, job.inode)));   if !ok { return; }
      if job.exitCode == 0 {
        ok := WriteJournal(running.(phase := RunFinished, terminal := Restore));
      } else {
        ok := WriteJournal(running.(phase := RunFailed));
      }
      if ok { Finished(); }
    }

    method VerifyGone(r: Record, w: World) returns (ok: bool)
      requires OnTrack() && Verify(r, w) <= todo
      modifies this
      ensures program == old(program) && start == old(start)
      ensures if ok then OnTrack() && todo == old(todo)[|Verify(r, w)|..] else Ended(false)
    {
      hide OnTrack, Ended, Exec;
      ScrubOfOne(State, w.parts);
      ok := Call(Gate(r.runner.None? || w.processGone));            if !ok { return; }
      ok := Call(GateIf(State, w.containerGone));                   if !ok { return; }
      ok := RemoveTree(State, w.parts);
    }

    method PrepareOutput(r: Record, w: World) returns (ok: bool)
      requires OnTrack() && Prepare(r, w) <= todo
      modifies this
      ensures program == old(program) && start == old(start)
      ensures if ok then OnTrack() && todo == old(todo)[|Prepare(r, w)|..] else Ended(false)
    {
      hide OnTrack, Ended, Exec;
      ScrubOfOne(StagedOutput, w.parts);
      ok := Call(EnsureDir(Staging));                               if !ok { return; }
      ok := Call(CheckPlain(StagedOutput));                         if !ok { return; }
      if r.terminal != Restore {
        ok := RemoveTree(StagedOutput, w.parts);                    if !ok { return; }
        ok := Call(Mkdir(StagedOutput));
      } else {
        ok := Call(EnsureDir(StagedOutput));
      }
    }

    method PurgeRest(r: Record, w: World) returns (ok: bool)
      requires OnTrack() && Purge(r, w) <= todo
      modifies this
      ensures program == old(program) && start == old(start)
      ensures if ok then OnTrack() && todo == old(todo)[|Purge(r, w)|..] else Ended(false)
    {
      hide OnTrack, Ended, Exec;
      ScrubOfTwo(Input, StagedInput, w.parts);
      ScrubOfOne(Bundle, w.parts);
      ok := RemoveTree(Input, w.parts);                             if !ok { return; }
      ok := RemoveTree(StagedInput, w.parts);                       if !ok { return; }
      if r.hasProxy {
        ok := Call(UnlinkSocket(Proxy));                            if !ok { return; }
      } else {
        NotTaken(1);
      }
      ok := Call(UnlinkSocket(StagedProxy));                        if !ok { return; }
      ok := RemoveTree(Bundle, w.parts);
    }

    method CloseCustody(w: World) returns (ok: bool)
      requires OnTrack() && Close(w) <= todo
      modifies this
      ensures program == old(program) && start == old(start)
      ensures if ok then OnTrack() && todo == old(todo)[|Close(w)|..] else Ended(false)
    {
      hide OnTrack, Ended, Exec;
      ScrubOfTwo(StagedOutput, Staging, w.parts);
      ok := RemoveTree(StagedOutput, w.parts);                      if !ok { return; }
      ok := RemoveTree(Staging, w.parts);                           if !ok { return; }
      ok := Call(DropScratch);                                      if !ok { return; }
      ok := Call(Forget);
    }

    /** `finalize`.  Without a journal it raises at once; with one it makes the calls of `FinalizeProgram`, so
        it succeeds exactly when `Completes` says and leaves exactly the published directory. */
    method Finalize(w: World) returns (ok: bool)
      modifies this
      ensures old(disk).journal.None? ==> !ok && disk == old(disk)
      ensures old(disk).journal.Some? ==>
                program == FinalizeProgram(old(disk).journal.value, w) && start == old(disk) && Ended(ok)
      ensures Held(old(disk)) ==>
                && (ok <==> Completes(old(disk), w))
                && (ok ==> disk == Disk(map[Output := Published(old(disk))], None, false))
    {
      hide OnTrack, Ended, Exec, FinalizeProgram, Verify, Prepare, Purge, Close, Completes, Published, After;
      if disk.journal.None? { return false; }
      var r := disk.journal.value;
      ghost var d0 := disk;
      Begin(FinalizeProgram(r, w));
      FinalizeSections(r, w);
      ghost var settle := [Settle(Early(r.phase))];
      FirstSection(todo, Verify(r, w), Prepare(r, w) + (Purge(r, w) + (settle + Close(w))));
      ok := VerifyGone(r, w);
      if ok {
        FirstSection(todo, Prepare(r, w), Purge(r, w) + (settle + Close(w)));
        ok := PrepareOutput(r, w);
      }
      if ok {
        FirstSection(todo, Purge(r, w), settle + Close(w));
        ok := PurgeRest(r, w);
      }
      if ok { ok := Call(Settle(Early(r.phase))); }
      if ok { ok := CloseCustody(w); }
      if ok { Finished(); }
      assert After(FinalizeProgram(r, w), d0) == Attempt(disk, ok);
      if Held(d0) { FinalizeOutcome(d0, w); }
    }
  }
}
