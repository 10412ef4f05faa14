/** Whom the broker may signal when pids are reused.  The process table changes under the broker's feet:
    every wait lets the next table of an arbitrary history take effect. */
module ProcessOwnership {
  import opened Host

  /** A live process; zombies are not in the table, because the broker reads them as absent. */
  datatype Proc = Proc(pgid: int, startTicks: int)

  type Table = map<int, Proc>

  datatype Owned = Owned(leader: Identity, members: map<int, int>)

  predicate Matches(t: Table, id: Identity) {
    id.pid in t && t[id.pid] == Proc(id.pgid, id.startTicks)
  }

  function Group(t: Table, pgid: int): set<int> { set p | p in t && t[p].pgid == pgid }

  lemma GroupIsEmptyExactlyWhen(t: Table, pgid: int)
    ensures Group(t, pgid) == {} <==> forall p | p in t :: t[p].pgid != pgid
  {
    var group := Group(t, pgid);
    forall p | p in t && group == {} ensures t[p].pgid != pgid { assert p !in group; }
    if forall p | p in t :: t[p].pgid != pgid { assert forall p :: p !in group; }
  }

  datatype Urgency = Term | Kill

  /** One delivery: what the table was when it happened, and who got what. */
  datatype Signal = Signal(at: Table, receivers: set<int>, urgency: Urgency)

  /** Either the whole group, whose leader is still the recorded process, or one recorded member. */
  predicate Justified(o: Owned, s: Signal) {
    || (Matches(s.at, o.leader) && s.receivers == Group(s.at, o.leader.pgid))
    || (exists p | p in o.members ::
          s.receivers == {p} && p in s.at && s.at[p] == Proc(o.leader.pgid, o.members[p]))
  }

  predicate AllJustified(o: Owned, sent: seq<Signal>) {
    forall i | 0 <= i < |sent| :: Justified(o, sent[i])
  }

  /** The recorded members in the order they were recorded. */
  predicate Enumerates(order: seq<int>, o: Owned) {
    && (forall p | p in order :: p in o.members) && (forall p | p in o.members :: p in order)
    && forall i, j | 0 <= i < j < |order| :: order[i] != order[j]
  }

  /** What one wait makes of the table and of the tables still to come. */
  function Later(t: Table, future: seq<Table>): (Table, seq<Table>) {
    if future == [] then (t, []) else (future[0], future[1..])
  }

  function AfterWaits(n: nat, t: Table, future: seq<Table>): (Table, seq<Table>) {
    if n == 0 then (t, future) else var later := AfterWaits(n - 1, t, future); Later(later.0, later.1)
  }

  /** Waiting goes through any history: every table in it gets its turn, and the last one stays. */
  lemma {:induction false} EveryTableGetsItsTurn(n: nat, t: Table, future: seq<Table>)
    ensures AfterWaits(n, t, future)
         == if n == 0 then (t, future)
            else if n <= |future| then (future[n - 1], future[n..])
            else (if future == [] then t else future[|future| - 1], [])
  {
    if n > 0 { EveryTableGetsItsTurn(n - 1, t, future); }
  }

  function ToMember(o: Owned, p: int, t: Table, u: Urgency): seq<Signal>
    requires p in o.members
  {
    if p in t && t[p] == Proc(o.leader.pgid, o.members[p]) then [Signal(t, {p}, u)] else []
  }

  /** One pass over recorded members while the table moves on after each: exactly those that still match when
      their turn comes are signalled. */
  function Deliveries(o: Owned, order: seq<int>, t: Table, future: seq<Table>, u: Urgency): seq<Signal>
    requires forall p | p in order :: p in o.members
  {
    if order == [] then []
    else
      var later := Later(t, future);
      ToMember(o, order[0], t, u) + Deliveries(o, order[1..], later.0, later.1, u)
  }

  lemma {:induction false} DeliveriesAreJustified(o: Owned, order: seq<int>, t: Table, future: seq<Table>, u: Urgency)
    requires forall p | p in order :: p in o.members
    ensures AllJustified(o, Deliveries(o, order, t, future, u))
  {
    if order != [] {
      var later := Later(t, future);
      DeliveriesAreJustified(o, order[1..], later.0, later.1, u);
      if ToMember(o, order[0], t, u) != [] { assert Justified(o, Signal(t, {order[0]}, u)); }
    }
  }

  lemma OneDelivery(o: Owned, order: seq<int>, i: nat, t: Table, future: seq<Table>, u: Urgency, done: seq<Signal>)
    requires (forall p | p in order :: p in o.members) && i < |order|
    ensures done + Deliveries(o, order[i..], t, future, u)
         == done + ToMember(o, order[i], t, u)
            + Deliveries(o, order[i + 1..], Later(t, future).0, Later(t, future).1, u)
  {
    assert order[i..][0] == order[i] && order[i..][1..] == order[i + 1..];
  }

  lemma NothingToJustify(o: Owned)
    ensures AllJustified(o, [])
  {
  }

  lemma JustifiedTogether(o: Owned, a: seq<Signal>, b: seq<Signal>)
    requires AllJustified(o, a) && AllJustified(o, b)
    ensures AllJustified(o, a + b)
  {
  }

  function GroupSignal(o: Owned, t: Table, u: Urgency): Signal { Signal(t, Group(t, o.leader.pgid), u) }

  datatype Verdict = Gone | Remains | Unverifiable

  /** A matching leader's group gets one termination signal, then one kill only if it still matches then; the
      group is given up on only after both. */
  predicate Escalates(o: Owned, t: Table, signals: seq<Signal>, v: Verdict) {
    && 1 <= |signals| <= 2 && signals[0] == GroupSignal(o, t, Term)
    && (|signals| == 2 ==> Matches(signals[1].at, o.leader) && signals[1] == GroupSignal(o, signals[1].at, Kill))
    && (v == Remains ==> |signals| == 2) && (v == Unverifiable ==> |signals| == 1)
  }

  /** The second time, nobody is asked: the group, or each recorded member that still matches, is killed. */
  function Demands(o: Owned, order: seq<int>, t: Table, future: seq<Table>): seq<Signal>
    requires forall p | p in order :: p in o.members
  {
    if o.leader.pid in t && t[o.leader.pid] == Proc(o.leader.pgid, o.leader.startTicks)
    then [Signal(t, Group(t, o.leader.pgid), Kill)]
    else Deliveries(o, order, t, future, Kill)
  }

  class Kernel {
    var table: Table
    var future: seq<Table>
    ghost var sent: seq<Signal>

    /** Time passes: the table may become anything. */
    method Wait()
      modifies this`table, this`future
      ensures (table, future) == Later(old(table), old(future))
    {
      if future != [] { table, future := future[0], future[1..]; }
    }

    method KillGroup(o: Owned, u: Urgency)
      modifies this`sent
      ensures sent == old(sent) + [GroupSignal(o, table, u)]
    {
      sent := sent + [GroupSignal(o, table, u)];
    }

    method SignalMember(o: Owned, p: int, u: Urgency)
      requires p in o.members
      modifies this`sent
      ensures sent == old(sent) + ToMember(o, p, table, u)
    {
      if p in table && table[p] == Proc(o.leader.pgid, o.members[p]) { sent := sent + [Signal(table, {p}, u)]; }
    }

    /** One signal to every recorded member that still matches. */
    method SignalMembers(o: Owned, order: seq<int>, u: Urgency)
      requires forall p | p in order :: p in o.members
      modifies this
      ensures sent == old(sent) + Deliveries(o, order, old(table), old(future), u)
    {
      ghost var before, all := sent, Deliveries(o, order, table, future, u);
      ghost var done: seq<Signal> := [];
      assert order[0..] == order;
      hide ToMember, Later;
      var i := 0;
      while i < |order|
        invariant 0 <= i <= |order| && sent == before + done
        invariant done + Deliveries(o, order[i..], table, future, u) == all
      {
        hide Deliveries;
        var p := order[i];
        OneDelivery(o, order, i, table, future, u, done);
        ghost var signals := ToMember(o, p, table, u);
        SignalMember(o, p, u);
        assert sent == before + (done + signals);
        done := done + signals;
        Wait();
        i := i + 1;
      }
      assert order[i..] == [];
    }

    /** `_signal_owned_process`: the group while its leader matches, else the recorded members one by one. */
    method SignalOwned(o: Owned, order: seq<int>, u: Urgency)
      requires Enumerates(order, o)
      modifies this
      ensures var t, l := old(table), o.leader;
              sent == old(sent) + if l.pid in t && t[l.pid] == Proc(l.pgid, l.startTicks)
                                  then [Signal(t, (set p | p in t && t[p].pgid == l.pgid), u)]
                                  else Deliveries(o, order, t, old(future), u)
      ensures AllJustified(o, sent[|old(sent)|..])
    {
      if Matches(table, o.leader) {
        KillGroup(o, u);
      } else {
        DeliveriesAreJustified(o, order, table, future, u);
        SignalMembers(o, order, u);
      }
    }

    /** Poll until the group is empty or the deadline's `polls` are used up. */
    method AwaitGroup(pgid: int, polls: nat)
      modifies this`table, this`future
      ensures Group(table, pgid) == {} || |future| == if |old(future)| > polls then |old(future)| - polls else 0
    {
      var n := polls;
      while n > 0 && Group(table, pgid) != {}
        invariant 0 <= n <= polls && |future| == if |old(future)| > polls - n then |old(future)| - (polls - n) else 0
      {
        Wait();
        n := n - 1;
      }
    }

    /** The leader is gone: the members recorded with it are asked to go, then made to. */
    method TerminateMembers(o: Owned, order: seq<int>, polls: nat) returns (v: Verdict)
      requires Enumerates(order, o) && o.leader.pid !in table
      modifies this
      ensures old(sent) <= sent && AllJustified(o, sent[|old(sent)|..])
      ensures v == if Group(table, o.leader.pgid) == {} then Gone else Remains
      ensures if Group(old(table), o.leader.pgid) == {} then v == Gone && sent == old(sent)
              else Deliveries(o, order, old(table), old(future), Term) <= sent[|old(sent)|..]
      ensures Group(old(table), o.leader.pgid) != {} ==>
                var asked, signals := Deliveries(o, order, old(table), old(future), Term), sent[|old(sent)|..];
                (v == Gone && signals == asked)
                || exists t: Table, later: seq<Table> ::
                     Group(t, o.leader.pgid) != {} && signals == asked + Demands(o, order, t, later)
    {
      hide AllJustified, Deliveries;
      var pgid := o.leader.pgid;
      ghost var before := sent;
      NothingToJustify(o);
      assert sent[|before|..] == [];
      if Group(table, pgid) == {} { return Gone; }
      SignalOwned(o, order, Term);
      ghost var middle := sent;
      AwaitGroup(pgid, polls);
      if Group(table, pgid) == {} { return Gone; }
      ghost var demands := Demands(o, order, table, future);
      SignalOwned(o, order, Kill);
      assert sent[|middle|..] == demands;
      JustifiedTogether(o, middle[|before|..], sent[|middle|..]);
      assert sent[|before|..] == middle[|before|..] + sent[|middle|..];
      AwaitGroup(pgid, polls);
      v := if Group(table, pgid) == {} then Gone else Remains;
    }

    /** `_terminate_owned_identity`. */
    method TerminateOwned(o: Owned, order: seq<int>, polls: nat) returns (v: Verdict)
      requires Enumerates(order, o)
      modifies this
      ensures old(sent) <= sent && AllJustified(o, sent[|old(sent)|..])
      ensures v == Gone ==> Group(table, o.leader.pgid) == {}
      ensures v == Remains ==> Group(table, o.leader.pgid) != {}
      ensures o.leader.pid in old(table) && !Matches(old(table), o.leader) ==> v == Unverifiable && sent == old(sent)
      ensures v == Unverifiable ==> !Matches(table, o.leader)
      ensures Matches(old(table), o.leader) ==> Escalates(o, old(table), sent[|old(sent)|..], v)
      ensures var t, l, signals := old(table), o.leader, sent[|old(sent)|..];
              l.pid in t && t[l.pid] == Proc(l.pgid, l.startTicks) ==>
                && 1 <= |signals| <= 2 && signals[0] == Signal(t, (set p | p in t && t[p].pgid == l.pgid), Term)
                && (|signals| == 2 ==> signals[1].urgency == Kill)
                && (v == Gone <==> forall p | p in table :: table[p].pgid != l.pgid)
                && (v == Remains ==> |signals| == 2 && exists p | p in table :: table[p].pgid == l.pgid)
      ensures o.leader.pid !in old(table) ==>
                if Group(old(table), o.leader.pgid) == {} then v == Gone && sent == old(sent)
                else
                  && v != Unverifiable
                  && var asked, signals := Deliveries(o, order, old(table), old(future), Term), sent[|old(sent)|..];
                     (v == Gone && signals == asked)
                     || exists t: Table, later: seq<Table> ::
                          Group(t, o.leader.pgid) != {} && signals == asked + Demands(o, order, t, later)
    {
      hide Deliveries, Enumerates;
      var pgid := o.leader.pgid;
      if o.leader.pid !in table {
        v := TerminateMembers(o, order, polls);
        return;
      }
      if !Matches(table, o.leader) { return Unverifiable; }
      KillGroup(o, Term);
      AwaitGroup(pgid, polls);
      GroupIsEmptyExactlyWhen(table, pgid);
      if Group(table, pgid) == {} { return Gone; }
      if !Matches(table, o.leader) { return Unverifiable; }
      KillGroup(o, Kill);
      AwaitGroup(pgid, polls);
      v := if Group(table, pgid) == {} then Gone else Remains;
      GroupIsEmptyExactlyWhen(table, pgid);
    }

    /** The process gate of `finalize`.  It opens in exactly two ways: the recorded leader is gone when it is
        first looked up, and then nobody is signalled and the rest of the group is never looked at; or it is
        alive, still the recorded process, and its whole group is gone afterwards.  Terminating looks the leader up
        again, in the next table: what is sent depends on what is found there. */
    method FinalizeGate(o: Owned, order: seq<int>, polls: nat) returns (open: bool)
      requires Enumerates(order, o)
      modifies this
      ensures old(sent) <= sent && AllJustified(o, sent[|old(sent)|..])
      ensures o.leader.pid !in old(table) ==> open && table == old(table) && sent == old(sent)
      ensures o.leader.pid in old(table) && !Matches(old(table), o.leader) ==> !open && sent == old(sent)
      ensures Matches(old(table), o.leader) ==>
                && (open ==> Group(table, o.leader.pgid) == {})
                && (var next, signals := Later(old(table), old(future)), sent[|old(sent)|..];
                    if Matches(next.0, o.leader) then
                      exists v: Verdict :: (v == Gone <==> open) && Escalates(o, next.0, signals, v)
                    else if o.leader.pid in next.0 then !open && signals == []
                    else if Group(next.0, o.leader.pgid) == {} then open && signals == []
                    else
                      var asked := Deliveries(o, order, next.0, next.1, Term);
                      (open && signals == asked)
                      || exists t: Table, later: seq<Table> ::
                           Group(t, o.leader.pgid) != {} && signals == asked + Demands(o, order, t, later))
                && (!open ==> Group(table, o.leader.pgid) != {} || !Matches(table, o.leader))
      ensures open ==> Released(old(table), table, o)
    {
      hide Deliveries, Group, AllJustified, Enumerates;
      NothingToJustify(o);
      ghost var before := sent;
      assert sent[|before|..] == [];
      open := true;
      if Matches(table, o.leader) {
        Wait();
        var v := TerminateOwned(o, order, polls);
        open := v == Gone;
      } else if o.leader.pid in table {
        open := false;
      }
    }
  }

  /** What an open gate tells: `before` is the table at the first look-up, `after` the one at the last. */
  predicate Released(before: Table, after: Table, o: Owned) {
    || (o.leader.pid !in before && after == before)
    || (Matches(before, o.leader) && Group(after, o.leader.pgid) == {})
  }

  /** finalize promises to release an attempt only once its processes are proven gone.  The gate proves it
      exactly when the leader is still in the table, or nothing of its group is: an orphan slips through. */
  lemma GateProvesAbsenceExactlyWhen(before: Table, o: Owned)
    ensures (forall after | Released(before, after, o) :: Group(after, o.leader.pgid) == {})
            <==> (o.leader.pid in before || Group(before, o.leader.pgid) == {})
    ensures var orphaned, gone := map[12 := Proc(11, 5)], Owned(Identity(11, 11, 4), map[12 := 5]);
            Released(orphaned, orphaned, gone) && 12 in Group(orphaned, 11)
  {
    if o.leader.pid !in before { assert Released(before, before, o); }
  }

  // ---------------------------------------------------------------- pid reuse over a history

  /** What the kernel knows and the table does not show: which process holds each pid, by serial number, and the
      time in clock ticks. */
  datatype Instant = Instant(table: Table, serial: map<int, int>, clock: int)

  predicate Seen(a: Instant) {
    && a.serial.Keys == a.table.Keys && (forall p | p in a.table :: a.table[p].startTicks <= a.clock)
    && forall p, q | p in a.serial && q in a.serial && p != q :: a.serial[p] != a.serial[q]
  }

  predicate Holds(t: Table, p: int, start: int) { p in t && t[p].startTicks == start }

  /** The same process holds `p`; its start time never changes. */
  predicate Same(a: Instant, b: Instant, p: int) {
    && p in a.table && p in a.serial && p in b.table && p in b.serial
    && a.serial[p] == b.serial[p] && a.table[p].startTicks == b.table[p].startTicks
  }

  /** A process that was not there before; it may have started in the tick that was running. */
  predicate Newcomer(a: Instant, b: Instant, p: int) {
    p in b.table && p in b.serial && b.serial[p] !in a.serial.Values && a.clock <= b.table[p].startTicks
  }

  /** Kernel rule: a pid is held by the same process as before, or by one that started since. */
  predicate Succeeds(a: Instant, b: Instant) {
    a.clock <= b.clock && forall p | p in b.table :: Same(a, b, p) || Newcomer(a, b, p)
  }

  ghost predicate Lawful(h: seq<Instant>) {
    && (forall i | 0 <= i < |h| :: Seen(h[i]))
    && (forall i, j | 0 <= i < j < |h| && j == i + 1 :: Succeeds(h[i], h[j]))
  }

  /** A start time read in a later tick, and found again, was never interrupted: one process held the pid. */
  lemma {:induction false} MatchMeansSameProcess(h: seq<Instant>, i: nat, j: nat, p: int, start: int)
    requires Lawful(h) && i <= j < |h| && start < h[i].clock
    requires Holds(h[i].table, p, start) && Holds(h[j].table, p, start)
    ensures forall k | i <= k <= j :: Same(h[k], h[j], p)
    decreases j - i
  {
    assert Seen(h[j]);
    if i < j {
      ClockGrows(h, i, j - 1);
      assert Succeeds(h[j - 1], h[j]);
      assert Same(h[j - 1], h[j], p);
      MatchMeansSameProcess(h, i, j - 1, p, start);
      forall k | i <= k <= j ensures Same(h[k], h[j], p) { if k < j { assert Same(h[k], h[j - 1], p); } }
    }
  }

  lemma {:induction false} ClockGrows(h: seq<Instant>, i: nat, j: nat)
    requires Lawful(h) && i <= j < |h|
    ensures h[i].clock <= h[j].clock
    decreases j - i
  {
    if i < j {
      ClockGrows(h, i, j - 1);
      assert Succeeds(h[j - 1], h[j]);
    }
  }

  lemma {:induction false} Above(s: set<int>) returns (n: int)
    ensures forall x | x in s :: x < n
  {
    n := 0;
    if x :| x in s {
      var m := Above(s - {x});
      n := if m <= x then x + 1 else m;
      forall y | y in s ensures y < n { assert y == x || y in s - {x}; }
    }
  }

  /** `p` changes hands within one tick. */
  lemma Reused(a: Instant, p: int, unused: int)
    requires Seen(a) && p in a.table && (forall n | n in a.serial.Values :: n < unused)
    ensures Seen(a.(serial := a.serial[p := unused]))
  {
    var b := a.(serial := a.serial[p := unused]);
    assert b.serial.Keys == a.serial.Keys;
    forall q | q in a.serial ensures a.serial[q] != unused { assert a.serial[q] in a.serial.Values; }
  }

  ghost predicate NeverMistaken(a: Instant, p: int, start: int) {
    forall h: seq<Instant>, j: nat | Lawful(h) && j < |h| && h[0] == a && Holds(h[j].table, p, start) ::
      Same(a, h[j], p)
  }

  /** The broker tells processes apart by pid and start time.  That is never mistaken, over any lawful future,
      exactly when the record was read in a later tick than the process started in. */
  lemma NeverMistakenExactlyWhen(a: Instant, p: int, start: int)
    requires Seen(a) && Holds(a.table, p, start)
    ensures NeverMistaken(a, p, start) <==> start < a.clock
  {
    if start < a.clock {
      forall h: seq<Instant>, j: nat | Lawful(h) && j < |h| && h[0] == a && Holds(h[j].table, p, start)
        ensures Same(a, h[j], p)
      {
        MatchMeansSameProcess(h, 0, j, p, start);
      }
    } else {
      var unused := Above(a.serial.Values);
      var h := [a, a.(serial := a.serial[p := unused])];
      assert a.serial[p] in a.serial.Values;
      forall q | q in h[1].table ensures Same(a, h[1], q) || Newcomer(a, h[1], q) { }
      Reused(a, p, unused);
      assert Lawful(h) && Holds(h[1].table, p, start) && !Same(a, h[1], p);
    }
  }

  /** A pid that changes hands within one tick: the two processes look alike. */
  lemma SameTickReuse()
    ensures var t := map[11 := Proc(11, 4)];
            var a, b := Instant(t, map[11 := 1], 4), Instant(t, map[11 := 2], 4);
            Lawful([a, b]) && Matches(a.table, Identity(11, 11, 4)) && Matches(b.table, Identity(11, 11, 4))
            && !Same(a, b, 11)
  {
    var t := map[11 := Proc(11, 4)];
    var a, b := Instant(t, map[11 := 1], 4), Instant(t, map[11 := 2], 4);
    var h := [a, b];
    assert Seen(h[0]) && Seen(h[1]);
    assert forall q | q in a.serial :: a.serial[q] == 1;
    assert b.serial[11] == 2 && 2 !in a.serial.Values;
    assert Newcomer(a, b, 11) && Succeeds(h[0], h[1]);
  }

  /** So every justified delivery, at any later moment of a lawful history, goes to members of the recorded
      group only, and the recorded leader or the recorded member that justifies it has been the same live
      process from the record to the delivery, if the clock had moved on when the record was read. */
  lemma DeliveryReachesRecordedProcess(h: seq<Instant>, i: nat, j: nat, o: Owned, sent: seq<Signal>, s: Signal)
    requires Lawful(h) && i <= j < |h| && s.at == h[j].table && AllJustified(o, sent) && s in sent
    requires Matches(h[i].table, o.leader) && o.leader.startTicks < h[i].clock
    requires forall p | p in o.members :: Holds(h[i].table, p, o.members[p]) && o.members[p] < h[i].clock
    ensures forall q | q in s.receivers :: q in s.at && s.at[q].pgid == o.leader.pgid
    ensures (forall k | i <= k <= j :: Same(h[k], h[j], o.leader.pid))
            || (exists p | p in o.members :: s.receivers == {p} && forall k | i <= k <= j :: Same(h[k], h[j], p))
  {
    if Matches(s.at, o.leader) && s.receivers == Group(s.at, o.leader.pgid) {
      MatchMeansSameProcess(h, i, j, o.leader.pid, o.leader.startTicks);
    } else {
      var p :| p in o.members && s.receivers == {p} && p in s.at && s.at[p] == Proc(o.leader.pgid, o.members[p]);
      MatchMeansSameProcess(h, i, j, p, o.members[p]);
    }
  }
}
