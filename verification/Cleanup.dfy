/** Stale-attempt cleanup: which candidates it finalizes, which it reclaims, which it leaves alone, and what
    interrupting a sweep and repeating it comes to. */
module Cleanup {
  import opened Custody
  import opened Host
  import opened Options
  import opened Recovery

  /** The custody directories a sweep looks at. */
  const RESIDUE: set<Path> := {State, Bundle, Staging}

  /** Everything root holds for one container id.  `broken` says a journal file is there that does not load;
      `stamps` are modification times; `unsafe` directories are symlinks or not root's alone. */
  datatype Slot = Slot(disk: Disk, broken: bool, journalTime: int, journalSafe: bool, stamps: map<Path, int>,
    unsafe: set<Path>)

  predicate Sound(s: Slot) {
    && (s.broken ==> s.disk.journal.None?)
    && (forall p | p in s.disk.fs :: HasParent(p, s.disk.fs))
    && (s.disk.journal.Some? ==>
          && HeldShape(s.disk) && (Early(s.disk.journal.value.phase) ==> s.disk.journal.value.terminal == Discard))
  }

  /** `Held`, as a check. */
  predicate HeldShape(d: Disk)
    requires d.journal.Some?
  {
    && (Staging in d.fs ==> d.fs[Staging].Dir?) && (StagedProxy in d.fs ==> d.fs[StagedProxy].Socket?)
    && (Proxy in d.fs ==> d.fs[Proxy].Socket? && d.journal.value.hasProxy)
  }

  datatype Listing = Absent | Present | ListingFails

  /** What the outside answers about one candidate, how removals are cut up, and the times they leave behind. */
  datatype Answer = Answer(listing: Listing, world: World, stamps: map<Path, int>)

  predicate HasJournal(s: Slot) { s.broken || s.disk.journal.Some? }

  predicate Newer(s: Slot, p: Path, cutoff: int) { p in s.disk.fs && p in s.stamps && s.stamps[p] > cutoff }

  predicate HasResidue(s: Slot) { exists p | p in RESIDUE :: p in s.disk.fs }

  predicate UnsafeResidue(s: Slot) { exists p | p in RESIDUE :: p in s.disk.fs && p in s.unsafe }

  /** A journal file that is not root's alone, or younger than the cutoff. */
  predicate KeepsAway(s: Slot, cutoff: int) { HasJournal(s) && (!s.journalSafe || s.journalTime > cutoff) }

  /** `_reclaim_without_journal` gets to its removals. */
  predicate Reclaimable(s: Slot, cutoff: int, a: Answer) {
    !UnsafeResidue(s) && HasResidue(s) && (forall p | p in RESIDUE :: !Newer(s, p, cutoff)) && a.listing == Absent
  }

  function Removals(s: Slot, a: Answer): seq<Op> {
    Scrub([Bundle, Staging, State], a.world.parts) + if HasJournal(s) then [Forget] else []
  }

  /** The calls a sweep makes on one candidate, up to the first that raises. */
  function Calls(s: Slot, cutoff: int, a: Answer): seq<Op> {
    if KeepsAway(s, cutoff) then []
    else if s.disk.journal.Some? then FinalizeProgram(s.disk.journal.value, a.world)
    else if Reclaimable(s, cutoff, a) then Removals(s, a)
    else []
  }

  function Least(a: nat, b: nat): nat { if a < b then a else b }

  /** The candidate after `k` of those calls, or all of them. */
  function Outcome(s: Slot, cutoff: int, a: Answer, k: nat): Slot {
    var ops := Calls(s, cutoff, a);
    if ops == [] then s
    else s.(disk := CrashedAt(ops, s.disk, Least(k, |ops|)), broken := s.broken && k < |ops|, stamps := a.stamps)
  }

  function Handled(s: Slot, cutoff: int, a: Answer): Slot { Outcome(s, cutoff, a, |Calls(s, cutoff, a)|) }

  // ---------------------------------------------------------------- the sweep

  class Sweeper {
    var slots: map<string, Slot>

    /** `_safe_journal_file`: raises for a symlink, or a file that is not root's alone. */
    method SafeJournalFile(id: string) returns (ok: bool)
      requires id in slots
      ensures ok <==> !HasJournal(slots[id]) || slots[id].journalSafe
    {
      ok := !HasJournal(slots[id]) || slots[id].journalSafe;
    }

    /** `_load_journal`: raises for a record that does not parse or is not this container's. */
    method LoadJournal(id: string) returns (r: Option<Record>)
      requires id in slots
      ensures r == slots[id].disk.journal
    {
      r := slots[id].disk.journal;
    }

    /** `_finalize_container`, killed after `cut` calls if `cut` says so; `ok` unless it raised. */
    method FinalizeContainer(id: string, a: Answer, cut: Option<nat>) returns (ok: bool)
      requires id in slots && slots[id].disk.journal.Some? && !slots[id].broken
      modifies this
      ensures var s := old(slots)[id]; var ops := FinalizeProgram(s.disk.journal.value, a.world);
              var n := if cut.Some? then Least(cut.value, |ops|) else |ops|;
              && slots == old(slots)[id := s.(disk := CrashedAt(ops, s.disk, n), stamps := a.stamps)]
              && (ok <==> After(ops[..n], s.disk).ok)
    {
      var s := slots[id];
      var ops := FinalizeProgram(s.disk.journal.value, a.world);
      var n := if cut.Some? then Least(cut.value, |ops|) else |ops|;
      var result := After(ops[..n], s.disk);
      slots := slots[id := s.(disk := result.disk, stamps := a.stamps)];
      ok := result.ok;
    }

    /** `_reclaim_without_journal`: it raises for unsafe directories and for a container that is, or may be, there. */
    method Reclaim(id: string, cutoff: int, a: Answer, cut: Option<nat>) returns (ok: bool)
      requires id in slots && slots[id].disk.journal.None?
        && (slots[id].broken ==> slots[id].journalSafe && slots[id].journalTime <= cutoff)
      modifies this
      ensures var s := old(slots)[id];
              slots == old(slots)[id := if cut.Some? then Outcome(s, cutoff, a, cut.value) else Handled(s, cutoff, a)]
      ensures !ok ==> slots == old(slots)
      ensures var s := old(slots)[id];
              !ok <==>
                (exists p | p in RESIDUE :: p in s.disk.fs && p in s.unsafe)
                || ((exists p | p in RESIDUE :: p in s.disk.fs)
                    && (forall p | p in RESIDUE && p in s.disk.fs && p in s.stamps :: s.stamps[p] <= cutoff)
                    && a.listing != Absent)
    {
      var s := slots[id];
      assert slots == slots[id := s];
      if UnsafeResidue(s) { return false; }
      if !HasResidue(s) { return true; }
      if exists p | p in RESIDUE :: Newer(s, p, cutoff) { return true; }
      if a.listing != Absent { return false; }
      var ops := Removals(s, a);
      var n := if cut.Some? then Least(cut.value, |ops|) else |ops|;
      slots := slots[id := s.(disk := After(ops[..n], s.disk).disk, broken := s.broken && n < |ops|,
        stamps := a.stamps)];
      ok := true;
    }

    /** `_run_cleanup` over its candidates in sorted order, killed after `cut` calls on candidate number `stop`,
        if there is one of that number.  Whatever the others raise, every candidate before it is handled, by what
        is its own alone, and every candidate after it is untouched. */
    method Sweep(candidates: seq<string>, cutoff: int, answers: map<string, Answer>, stop: nat, cut: nat)
      requires forall i, j | 0 <= i < j < |candidates| :: candidates[i] != candidates[j]
      requires forall i | 0 <= i < |candidates| :: candidates[i] in slots && candidates[i] in answers
      requires forall id | id in slots :: Sound(slots[id])
      modifies this
      ensures Swept(old(slots), slots, candidates, cutoff, answers, stop, cut)
    {
      hide Calls, Outcome, Handled, Sound;
      for i := 0 to |candidates|
        invariant i <= stop
        invariant slots.Keys == old(slots).Keys
        invariant forall id | id in slots && id !in candidates[..i] :: slots[id] == old(slots)[id]
        invariant SweptTo(old(slots), slots, candidates, cutoff, answers, i)
      {
        var id := candidates[i];
        assert id !in candidates[..i];
        ghost var before := slots;
        var dying := if i == stop then Some(cut) else None;
        HandleOne(id, cutoff, answers[id], dying);
        assert candidates[..i + 1] == candidates[..i] + [id];
        if dying.Some? { return; }
      }
    }

    /** One turn of the loop, with its handlers: a raise ends the candidate's turn, never the sweep. */
    method HandleOne(id: string, cutoff: int, a: Answer, cut: Option<nat>)
      requires id in slots && Sound(slots[id])
      modifies this
      ensures var s := old(slots)[id];
              slots == old(slots)[id := if cut.Some? then Outcome(s, cutoff, a, cut.value) else Handled(s, cutoff, a)]
    {
      var s := slots[id];
      assert slots == slots[id := s];
      if HasJournal(s) {
        var safe := SafeJournalFile(id);
        if !safe { return; }
        if s.journalTime > cutoff { return; }
        var record := LoadJournal(id);
        if record.Some? {
          assert Calls(s, cutoff, a) == FinalizeProgram(s.disk.journal.value, a.world);
          var done := FinalizeContainer(id, a, cut);
          return;
        }
      }
      var ok := Reclaim(id, cutoff, a, cut);
    }
  }

  /** The first `n` candidates are handled, everything else is as before. */
  ghost predicate SweptTo(before: map<string, Slot>, after: map<string, Slot>, candidates: seq<string>, cutoff: int,
                          answers: map<string, Answer>, n: nat)
    requires n <= |candidates|
  {
    && after.Keys == before.Keys
    && (forall i | 0 <= i < n :: candidates[i] in before && candidates[i] in answers
          && after[candidates[i]] == Handled(before[candidates[i]], cutoff, answers[candidates[i]]))
    && (forall id | id in before && id !in candidates[..n] :: after[id] == before[id])
  }

  /** A whole sweep, or one killed at candidate `stop`. */
  ghost predicate Swept(before: map<string, Slot>, after: map<string, Slot>, candidates: seq<string>, cutoff: int,
                        answers: map<string, Answer>, stop: nat, cut: nat)
  {
    && after.Keys == before.Keys
    && (forall i | 0 <= i < |candidates| && i <= stop :: candidates[i] in before && candidates[i] in answers
          && var s, a := before[candidates[i]], answers[candidates[i]];
             after[candidates[i]] == if i < stop then Handled(s, cutoff, a) else Outcome(s, cutoff, a, cut))
    && (forall i | stop < i < |candidates| && candidates[i] in before :: after[candidates[i]] == before[candidates[i]])
    && (forall id | id in before && id !in candidates :: after[id] == before[id])
  }
}
