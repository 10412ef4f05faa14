/** The model proxy's sessions under interleaving: any number of requests, cancellations and consumptions,
    switching at every await.  Sessions are objects: the table maps a token id to the current one, and a
    task keeps the object it looked up. */
module ProxyLedger {
  import opened Options
  import opened TokenTotals

  function Sum(us: seq<Totals>): Totals {
    if us == [] then ZERO else Plus(Sum(us[..|us| - 1]), us[|us| - 1])
  }

  /** `admitted` and `answered` are the session's history; the code keeps only `nextSeq`, `ledger`, `count`. */
  datatype Session = Session(
    nextSeq: nat, ledger: Totals, count: nat, timedOut: bool, cancelled: bool, holder: Option<int>,
    admitted: seq<nat>, answered: seq<Totals>)

  const NEW_SESSION := Session(1, ZERO, 0, false, false, None, [], [])

  datatype Task =
    | Waiting(obj: nat, number: int)      // `handle`, before the session lock
    | Upstream(obj: nat)                  // `handle`, holding it
    | Consuming(obj: nat, jti: string)    // `consume_attempt_finalization`, before the lock
    | Finished

  /** What the checks under the lock decide about an admitted request. */
  datatype Verdict = Forwarded | Rejected | Expired

  /** One consumption: the object it locked, the object it popped, and what it returned. */
  datatype Receipt = Receipt(locked: nat, popped: Option<nat>, tokens: Totals, timedOut: bool, covered: seq<Totals>)

  datatype World = World(objects: seq<Session>, table: map<string, nat>, tasks: map<int, Task>, receipts: seq<Receipt>)

  datatype Event =
    | Issue(jti: string)
    | Arrive(task: int, jti: string, number: int)
    | Acquire(task: int, verdict: Verdict)
    | Answer(task: int, usage: Totals)
    | Fail(task: int, timeout: bool)
    | Abandon(task: int)                  // the asyncio task is cancelled
    | CancelSession(jti: string)
    | ConsumeArrive(task: int, jti: string)
    | ConsumeAcquire(task: int)

  /** `_ensure_session`. */
  function Ensure(w: World, jti: string): World {
    if jti in w.table then w
    else w.(objects := w.objects + [NEW_SESSION], table := w.table[jti := |w.objects|])
  }

  function WithTask(w: World, t: int, task: Task): World { w.(tasks := w.tasks[t := task]) }

  function WithSession(w: World, o: nat, s: Session): World
    requires o < |w.objects|
  {
    w.(objects := w.objects[o := s])
  }

  /** Under a free lock: cancelled and out-of-sequence requests leave at once; any other consumes its number. */
  function Admit(w: World, t: int, o: nat, number: int, verdict: Verdict): World
    requires o < |w.objects|
  {
    var s := w.objects[o];
    if s.cancelled || number != s.nextSeq then WithTask(w, t, Finished)
    else
      var s' := s.(nextSeq := s.nextSeq + 1, admitted := s.admitted + [s.nextSeq]);
      match verdict
      case Rejected => WithTask(WithSession(w, o, s'), t, Finished)
      case Expired => WithTask(WithSession(w, o, s'.(timedOut := true)), t, Finished)
      case Forwarded => WithTask(WithSession(w, o, s'.(holder := Some(t))), t, Upstream(o))
  }

  /** The 200 answer, still under the lock. */
  function AnsweredBy(s: Session, usage: Totals): Session {
    s.(ledger := Plus(s.ledger, usage), count := s.count + 1, holder := None, answered := s.answered + [usage])
  }

  /** The pop under the lock, by token id. */
  function Pop(w: World, t: int, o: nat, jti: string): World {
    if jti in w.table && w.table[jti] < |w.objects| then
      var s := w.objects[w.table[jti]];
      WithTask(w.(table := w.table - {jti},
                  receipts := w.receipts + [Receipt(o, Some(w.table[jti]), s.ledger, s.timedOut, s.answered)]), t,
                    Finished)
    else WithTask(w.(receipts := w.receipts + [Receipt(o, None, ZERO, false, [])]), t, Finished)
  }

  function Step(e: Event, w: World): World {
    match e
    case Issue(jti) => Ensure(w, jti)
    case Arrive(t, jti, number) =>
      if t in w.tasks then w
      else var x := Ensure(w, jti); WithTask(x, t, Waiting(x.table[jti], number))
    case Acquire(t, verdict) =>
      if t in w.tasks && w.tasks[t].Waiting? && w.tasks[t].obj < |w.objects|
         && w.objects[w.tasks[t].obj].holder == None
      then Admit(w, t, w.tasks[t].obj, w.tasks[t].number, verdict) else w
    case Answer(t, usage) =>
      if t in w.tasks && w.tasks[t].Upstream? && w.tasks[t].obj < |w.objects| then
        var s := w.objects[w.tasks[t].obj];
        WithTask(WithSession(w, w.tasks[t].obj, AnsweredBy(s, usage)), t, Finished)
      else w
    case Fail(t, timeout) =>
      if t in w.tasks && w.tasks[t].Upstream? && w.tasks[t].obj < |w.objects| then
        var s := w.objects[w.tasks[t].obj];
        WithTask(WithSession(w, w.tasks[t].obj, s.(holder := None, timedOut := s.timedOut || timeout)), t, Finished)
      else w
    case Abandon(t) =>
      if t !in w.tasks then w
      else if w.tasks[t].Upstream? && w.tasks[t].obj < |w.objects| then
        var s := w.objects[w.tasks[t].obj];
        WithTask(WithSession(w, w.tasks[t].obj, s.(holder := None)), t, Finished)
      else WithTask(w, t, Finished)
    case CancelSession(jti) =>
      if jti in w.table && w.table[jti] < |w.objects|
      then WithSession(w, w.table[jti], w.objects[w.table[jti]].(cancelled := true)) else w
    case ConsumeArrive(t, jti) =>
      if t in w.tasks then w
      else if jti in w.table then WithTask(w, t, Consuming(w.table[jti], jti))
      else WithTask(w, t, Finished)
    case ConsumeAcquire(t) =>
      if t in w.tasks && w.tasks[t].Consuming? && w.tasks[t].obj < |w.objects|
         && w.objects[w.tasks[t].obj].holder == None
      then Pop(w, t, w.tasks[t].obj, w.tasks[t].jti) else w
  }

  function Steps(es: seq<Event>, w: World): World {
    if es == [] then w else Step(es[|es| - 1], Steps(es[..|es| - 1], w))
  }

  const START := World([], map[], map[], [])

  // ---------------------------------------------------------------- per session object

  /** The numbers admitted are 1, 2, ... in lock order, and the totals are the sums of what was answered. */
  ghost predicate Balanced(s: Session) {
    && s.nextSeq == |s.admitted| + 1
    && (forall k | 0 <= k < |s.admitted| :: s.admitted[k] == k + 1)
    && s.ledger == Sum(s.answered) && s.count == |s.answered|
    && |s.answered| + (if s.holder.Some? then 1 else 0) <= |s.admitted|
  }

  ghost predicate Locks(w: World) {
    && (forall t | t in w.tasks && w.tasks[t].Upstream? ::
          w.tasks[t].obj < |w.objects| && w.objects[w.tasks[t].obj].holder == Some(t))
    && (forall o | 0 <= o < |w.objects| && w.objects[o].holder.Some? ::
          w.objects[o].holder.value in w.tasks && w.tasks[w.objects[o].holder.value] == Upstream(o))
    && (forall t | t in w.tasks && (w.tasks[t].Waiting? || w.tasks[t].Consuming?) :: w.tasks[t].obj < |w.objects|)
  }

  predicate Popped(w: World, i: nat, o: nat) { i < |w.receipts| && w.receipts[i].popped == Some(o) }

  ghost predicate Receipts(w: World) {
    && (forall jti | jti in w.table :: w.table[jti] < |w.objects|)
    && (forall a, b | a in w.table && b in w.table && a != b :: w.table[a] != w.table[b])
    && (forall i: nat, o: nat | i < |w.receipts| && Popped(w, i, o) ::
          && o < |w.objects| && o !in w.table.Values
          && w.receipts[i].tokens == Sum(w.receipts[i].covered)
          && w.receipts[i].covered <= w.objects[o].answered)
    && (forall i: nat, j: nat, o: nat | i < j < |w.receipts| && Popped(w, i, o) :: !Popped(w, j, o))
  }

  ghost predicate Invariant(w: World) {
    Locks(w) && Receipts(w) && forall o | 0 <= o < |w.objects| :: Balanced(w.objects[o])
  }

  lemma SumOfOneMore(us: seq<Totals>, u: Totals)
    ensures Sum(us + [u]) == Plus(Sum(us), u)
  {
    assert (us + [u])[..|us|] == us;
  }

  lemma EnsureKeeps(w: World, jti: string)
    requires Invariant(w)
    ensures Invariant(Ensure(w, jti)) && jti in Ensure(w, jti).table
  {
    var x := Ensure(w, jti);
    assert forall o | 0 <= o < |w.objects| :: x.objects[o] == w.objects[o];
    forall i: nat, o: nat | i < |x.receipts| && Popped(x, i, o)
      ensures o < |x.objects| && o !in x.table.Values && x.receipts[i].tokens == Sum(x.receipts[i].covered)
              && x.receipts[i].covered <= x.objects[o].answered
    {
      assert Popped(w, i, o);
    }
    forall i: nat, j: nat, o: nat | i < j < |x.receipts| && Popped(x, i, o) ensures !Popped(x, j, o) {
      assert Popped(w, i, o) && !Popped(w, j, o);
    }
  }

  /** A task that holds no lock moves to another lock-free position. */
  lemma TaskKeeps(w: World, t: int, task: Task)
    requires Invariant(w) && (t in w.tasks ==> !w.tasks[t].Upstream?)
    requires task.Finished? || (!task.Upstream? && task.obj < |w.objects|)
    ensures Invariant(WithTask(w, t, task))
  {
    ReceiptsOnly(w, WithTask(w, t, task));
  }

  /** Receipts depend on the table, the receipts and the growing answers alone. */
  lemma ReceiptsOnly(w: World, x: World)
    requires Receipts(w) && x.table == w.table && x.receipts == w.receipts && |x.objects| == |w.objects|
    requires forall o | 0 <= o < |w.objects| :: w.objects[o].answered <= x.objects[o].answered
    ensures Receipts(x)
  {
    forall i: nat, o: nat | i < |x.receipts| && Popped(x, i, o)
      ensures o < |x.objects| && o !in x.table.Values && x.receipts[i].tokens == Sum(x.receipts[i].covered)
              && x.receipts[i].covered <= x.objects[o].answered
    {
      assert Popped(w, i, o);
    }
    forall i: nat, j: nat, o: nat | i < j < |x.receipts| && Popped(x, i, o) ensures !Popped(x, j, o) {
      assert Popped(w, i, o) && !Popped(w, j, o);
    }
  }

  /** A session changes without touching its lock. */
  lemma SessionKeeps(w: World, o: nat, s: Session)
    requires Invariant(w) && o < |w.objects| && Balanced(s)
    requires s.holder == w.objects[o].holder && w.objects[o].answered <= s.answered
    ensures Invariant(WithSession(w, o, s))
  {
    ReceiptsOnly(w, WithSession(w, o, s));
  }

  lemma TakeKeeps(w: World, t: int, o: nat, number: int, s: Session)
    requires Invariant(w) && t in w.tasks && w.tasks[t] == Waiting(o, number)
    requires w.objects[o].holder == None && s.holder == Some(t) && Balanced(s) && w.objects[o].answered <= s.answered
    ensures Invariant(WithTask(WithSession(w, o, s), t, Upstream(o)))
  {
    ReceiptsOnly(w, WithTask(WithSession(w, o, s), t, Upstream(o)));
  }

  lemma ReleaseKeeps(w: World, t: int, o: nat, s: Session)
    requires Invariant(w) && t in w.tasks && w.tasks[t] == Upstream(o)
    requires s.holder == None && Balanced(s) && w.objects[o].answered <= s.answered
    ensures Invariant(WithTask(WithSession(w, o, s), t, Finished))
  {
    ReceiptsOnly(w, WithTask(WithSession(w, o, s), t, Finished));
  }

  lemma RefuseKeeps(w: World, t: int, o: nat, number: int, s: Session)
    requires Invariant(w) && t in w.tasks && w.tasks[t] == Waiting(o, number)
    requires o < |w.objects| && Balanced(s) && s.holder == w.objects[o].holder && w.objects[o].answered <= s.answered
    ensures Invariant(WithTask(WithSession(w, o, s), t, Finished))
  {
    SessionKeeps(w, o, s);
    TaskKeeps(WithSession(w, o, s), t, Finished);
  }

  lemma AdmittedIsBalanced(s: Session)
    requires Balanced(s) && s.holder == None
    ensures Balanced(s.(nextSeq := s.nextSeq + 1, admitted := s.admitted + [s.nextSeq]))
  {
  }

  lemma HeldIsBalanced(s: Session, t: int)
    requires Balanced(s) && s.holder == None
    ensures Balanced(s.(nextSeq := s.nextSeq + 1, admitted := s.admitted + [s.nextSeq], holder := Some(t)))
  {
  }

  lemma ExpiredIsBalanced(s: Session)
    requires Balanced(s)
    ensures Balanced(s.(timedOut := true))
  {
  }

  lemma InvariantGives(w: World, o: nat)
    requires Invariant(w) && o < |w.objects|
    ensures Balanced(w.objects[o])
  {
  }

  lemma AdmitKeeps(w: World, t: int, o: nat, number: int, verdict: Verdict)
    requires Invariant(w) && t in w.tasks && w.tasks[t] == Waiting(o, number)
    requires o < |w.objects| && w.objects[o].holder == None
    ensures Invariant(Admit(w, t, o, number, verdict))
  {
    hide Invariant, Balanced;
    InvariantGives(w, o);
    AdmittedIsBalanced(w.objects[o]);
    var s := w.objects[o];
    if s.cancelled || number != s.nextSeq {
      TaskKeeps(w, t, Finished);
    } else {
      var s' := s.(nextSeq := s.nextSeq + 1, admitted := s.admitted + [s.nextSeq]);
      if verdict == Forwarded {
        HeldIsBalanced(w.objects[o], t);
        TakeKeeps(w, t, o, number, s'.(holder := Some(t)));
      } else {
        ExpiredIsBalanced(s');
        RefuseKeeps(w, t, o, number, if verdict == Expired then s'.(timedOut := true) else s');
      }
    }
  }

  lemma PopKeeps(w: World, t: int, o: nat, jti: string)
    requires Invariant(w) && t in w.tasks && w.tasks[t] == Consuming(o, jti)
    ensures Invariant(Pop(w, t, o, jti))
  {
    var x := Pop(w, t, o, jti);
    assert forall i: nat, q: nat | i < |w.receipts| && Popped(x, i, q) :: Popped(w, i, q);
    assert x.table.Keys <= w.table.Keys;
    forall i: nat, q: nat | i < |x.receipts| && Popped(x, i, q)
      ensures q < |x.objects| && q !in x.table.Values && x.receipts[i].tokens == Sum(x.receipts[i].covered)
              && x.receipts[i].covered <= x.objects[q].answered
    {
      if i < |w.receipts| { assert Popped(w, i, q); } else { assert Balanced(w.objects[q]); }
    }
    forall i: nat, j: nat, q: nat | i < j < |x.receipts| && Popped(x, i, q) ensures !Popped(x, j, q) {
      assert Popped(w, i, q);
      if j < |w.receipts| { assert !Popped(w, j, q); }
    }
  }

  lemma HoldsLock(w: World, t: int)
    requires Invariant(w) && t in w.tasks && w.tasks[t].Upstream?
    ensures var o := w.tasks[t].obj; o < |w.objects| && w.objects[o].holder == Some(t) && Balanced(w.objects[o])
  {
    hide Balanced;
  }

  lemma ReleasedIsBalanced(s: Session, late: bool)
    requires Balanced(s) && s.holder.Some?
    ensures Balanced(s.(holder := None)) && Balanced(s.(holder := None, timedOut := late))
  {
  }

  lemma AnsweredIsBalanced(s: Session, usage: Totals)
    requires Balanced(s) && s.holder.Some?
    ensures Balanced(AnsweredBy(s, usage))
  {
    SumOfOneMore(s.answered, usage);
    hide Sum, Plus;
  }

  lemma ReleaseEventKeeps(e: Event, w: World)
    requires Invariant(w) && (e.Answer? || e.Fail? || e.Abandon?)
    ensures Invariant(Step(e, w))
  {
    hide Invariant, Balanced, Plus;
    var t := e.task;
    if t in w.tasks && w.tasks[t].Upstream? {
      HoldsLock(w, t);
      var o := w.tasks[t].obj;
      var s := w.objects[o];
      match e
      case Answer(_, usage) =>
        AnsweredIsBalanced(s, usage);
        ReleaseKeeps(w, t, o, AnsweredBy(s, usage));
      case Fail(_, timeout) =>
        ReleasedIsBalanced(s, s.timedOut || timeout);
        ReleaseKeeps(w, t, o, s.(holder := None, timedOut := s.timedOut || timeout));
      case Abandon(_) =>
        ReleasedIsBalanced(s, s.timedOut);
        ReleaseKeeps(w, t, o, s.(holder := None));
    } else if t in w.tasks {
      TaskKeeps(w, t, Finished);
    }
  }

  lemma StepKeepsInvariant(e: Event, w: World)
    requires Invariant(w)
    ensures Invariant(Step(e, w))
  {
    match e
    case Issue(jti) => EnsureKeeps(w, jti);
    case Arrive(t, jti, number) =>
      if t !in w.tasks {
        EnsureKeeps(w, jti);
        TaskKeeps(Ensure(w, jti), t, Waiting(Ensure(w, jti).table[jti], number));
      }
    case Acquire(t, verdict) =>
      if t in w.tasks && w.tasks[t].Waiting? && w.objects[w.tasks[t].obj].holder == None {
        AdmitKeeps(w, t, w.tasks[t].obj, w.tasks[t].number, verdict);
      }
    case Answer(_, _) => ReleaseEventKeeps(e, w);
    case Fail(_, _) => ReleaseEventKeeps(e, w);
    case Abandon(_) => ReleaseEventKeeps(e, w);
    case CancelSession(jti) =>
      if jti in w.table {
        assert Balanced(w.objects[w.table[jti]]);
        SessionKeeps(w, w.table[jti], w.objects[w.table[jti]].(cancelled := true));
      }
    case ConsumeArrive(t, jti) =>
      if t !in w.tasks { TaskKeeps(w, t, if jti in w.table then Consuming(w.table[jti], jti) else Finished); }
    case ConsumeAcquire(t) =>
      if t in w.tasks && w.tasks[t].Consuming? && w.objects[w.tasks[t].obj].holder == None {
        PopKeeps(w, t, w.tasks[t].obj, w.tasks[t].jti);
      }
  }

  lemma {:induction false} InvariantAlways(es: seq<Event>)
    ensures Invariant(Steps(es, START))
  {
    if es != [] {
      InvariantAlways(es[..|es| - 1]);
      StepKeepsInvariant(es[|es| - 1], Steps(es[..|es| - 1], START));
    }
  }

  lemma OneUpstream(w: World, t: int, u: int)
    requires Locks(w) && t in w.tasks && u in w.tasks && w.tasks[t].Upstream? && w.tasks[u] == w.tasks[t]
    ensures t == u
  {
  }

  lemma PoppedOnce(w: World, i: nat, j: nat, o: nat)
    requires Receipts(w) && i < j < |w.receipts| && w.receipts[i].popped == Some(o)
    ensures w.receipts[j].popped != Some(o)
  {
    assert Popped(w, i, o) && !Popped(w, j, o);
  }

  lemma ReceiptCovers(w: World, i: nat, o: nat)
    requires Receipts(w) && i < |w.receipts| && w.receipts[i].popped == Some(o)
    ensures o < |w.objects| && w.receipts[i].tokens == Sum(w.receipts[i].covered)
            && w.receipts[i].covered <= w.objects[o].answered
  {
    assert Popped(w, i, o);
  }

  /** In every interleaving, for every session object: the numbers admitted are exactly 1 .. next_seq - 1, in
      lock order, none twice; each total is the sum over the requests answered 200; one request at most is in
      flight; the object is consumed at most once, and that consumption returns all answered before it. */
  lemma LedgerIsExact(es: seq<Event>)
    ensures var w := Steps(es, START);
      && (forall o | 0 <= o < |w.objects| :: var s := w.objects[o];
            && |s.admitted| + 1 == s.nextSeq && (forall k | 0 <= k < |s.admitted| :: s.admitted[k] == k + 1)
            && s.ledger == Sum(s.answered) && s.count == |s.answered|)
      && (forall t, u | t in w.tasks && u in w.tasks && w.tasks[t].Upstream? && w.tasks[u] == w.tasks[t] :: t == u)
      && (forall i: nat, o: nat | i < |w.receipts| && w.receipts[i].popped == Some(o) ::
            o < |w.objects| && w.receipts[i].tokens == Sum(w.receipts[i].covered)
            && w.receipts[i].covered <= w.objects[o].answered)
      && (forall i: nat, j: nat, o: nat | i < j < |w.receipts| && w.receipts[i].popped == Some(o) ::
            w.receipts[j].popped != Some(o))
  {
    hide Steps, Sum, Locks, Receipts;
    InvariantAlways(es);
    var w := Steps(es, START);
    assert forall o | 0 <= o < |w.objects| :: Balanced(w.objects[o]);
    hide Invariant;
    forall t, u | t in w.tasks && u in w.tasks && w.tasks[t].Upstream? && w.tasks[u] == w.tasks[t] ensures t == u {
      OneUpstream(w, t, u);
    }
    forall i: nat, j: nat, o: nat | i < j < |w.receipts| && w.receipts[i].popped == Some(o)
      ensures w.receipts[j].popped != Some(o)
    {
      PoppedOnce(w, i, j, o);
    }
    forall i: nat, o: nat | i < |w.receipts| && w.receipts[i].popped == Some(o)
      ensures o < |w.objects| && w.receipts[i].tokens == Sum(w.receipts[i].covered)
              && w.receipts[i].covered <= w.objects[o].answered
    {
      ReceiptCovers(w, i, o);
    }
  }

  /** Once popped, and until somebody issues or presents the token again, every further consumption of it
      returns nothing, however late its caller gets the lock. */
  lemma {:induction false} SecondConsumptionIsEmpty(es: seq<Event>, w: World, jti: string)
    requires jti !in w.table
    requires forall i | 0 <= i < |es| && (es[i].Issue? || es[i].Arrive?) :: es[i].jti != jti
    ensures var x := Steps(es, w);
      && jti !in x.table
      && (forall t, o: nat | t in x.tasks && x.tasks[t] == Consuming(o, jti) && Step(ConsumeAcquire(t), x) != x ::
            Step(ConsumeAcquire(t), x).receipts == x.receipts + [Receipt(o, None, ZERO, false, [])])
  {
    if es != [] {
      SecondConsumptionIsEmpty(es[..|es| - 1], w, jti);
    }
  }

  // ---------------------------------------------------------------- what a consumption can miss

  /** A consumption returns all its object had answered just before, and nothing for an unknown token. */
  lemma ConsumptionReturnsAllAnswered(es: seq<Event>, t: int, o: nat, jti: string)
    requires var w := Steps(es, START);
             t in w.tasks && w.tasks[t] == Consuming(o, jti) && o < |w.objects| && w.objects[o].holder == None
    ensures var w := Steps(es, START);
      var x := Step(ConsumeAcquire(t), w);
      && (jti !in w.table ==> x.receipts == w.receipts + [Receipt(o, None, ZERO, false, [])] && x.table == w.table)
      && (jti in w.table ==>
            var p := w.table[jti];
            && p < |w.objects| && x.table == w.table - {jti} && p !in x.table.Values && x.objects == w.objects
            && x.receipts == w.receipts + [Receipt(o, Some(p), Sum(w.objects[p].answered), w.objects[p].timedOut,
                                                   w.objects[p].answered)])
  {
    InvariantAlways(es);
    var w := Steps(es, START);
    if jti in w.table { assert Balanced(w.objects[w.table[jti]]); }
  }

  /** Some task can still get an answer for object `p`: it is upstream, or it waits for the lock with the number
      that is admitted next, on a session that is not cancelled. */
  predicate CanGrow(w: World, p: nat)
    requires p < |w.objects|
  {
    exists t | t in w.tasks ::
      w.tasks[t] == Upstream(p) || (w.tasks[t] == Waiting(p, w.objects[p].nextSeq) && !w.objects[p].cancelled)
  }

  /** Popped: nobody can look the object up any more. */
  predicate Detached(w: World, p: nat) { p < |w.objects| && p !in w.table.Values }

  lemma DetachedStep(e: Event, w: World, p: nat)
    requires Detached(w, p) && !CanGrow(w, p) && forall jti | jti in w.table :: w.table[jti] < |w.objects|
    ensures var x := Step(e, w);
            && Detached(x, p) && !CanGrow(x, p) && x.objects[p].answered == w.objects[p].answered
            && forall jti | jti in x.table :: x.table[jti] < |x.objects|
  {
    assert forall jti | jti in w.table :: w.table[jti] in w.table.Values;
  }

  lemma {:induction false} DetachedStays(later: seq<Event>, w: World, p: nat)
    requires Detached(w, p) && !CanGrow(w, p) && forall jti | jti in w.table :: w.table[jti] < |w.objects|
    ensures var x := Steps(later, w);
            && Detached(x, p) && !CanGrow(x, p) && x.objects[p].answered == w.objects[p].answered
            && forall jti | jti in x.table :: x.table[jti] < |x.objects|
  {
    hide CanGrow, Step, Detached;
    if later != [] {
      DetachedStays(later[..|later| - 1], w, p);
      DetachedStep(later[|later| - 1], Steps(later[..|later| - 1], w), p);
    }
  }

  /** Object `p` holds the same answers after these events as before. */
  predicate Unchanged(later: seq<Event>, w: World, p: nat)
    requires p < |w.objects|
  {
    var x := Steps(later, w); p < |x.objects| && x.objects[p].answered == w.objects[p].answered
  }

  lemma Answers(w: World, t: int, o: nat, u: Totals)
    requires t in w.tasks && w.tasks[t] == Upstream(o) && o < |w.objects|
    ensures var s := w.objects[o];
      Step(Answer(t, u), w)
      == w.(objects := w.objects[o := s.(ledger := Plus(s.ledger, u), count := s.count + 1, holder := None,
        answered := s.answered + [u])],
            tasks := w.tasks[t := Finished])
  {
  }

  lemma Forwards(w: World, t: int, o: nat, number: int)
    requires t in w.tasks && w.tasks[t] == Waiting(o, number) && o < |w.objects|
    requires w.objects[o].holder == None && !w.objects[o].cancelled && w.objects[o].nextSeq == number
    ensures var s := w.objects[o];
      Step(Acquire(t, Forwarded), w)
      == w.(objects := w.objects[o := s.(nextSeq := s.nextSeq + 1, admitted := s.admitted + [s.nextSeq],
        holder := Some(t))],
            tasks := w.tasks[t := Upstream(o)])
  {
  }

  lemma GrowsByOne(w: World, p: nat) returns (later: seq<Event>)
    requires p < |w.objects| && CanGrow(w, p) && Locks(w)
    ensures !Unchanged(later, w, p)
  {
    var t :| t in w.tasks
             && (w.tasks[t] == Upstream(p)
                 || (w.tasks[t] == Waiting(p, w.objects[p].nextSeq) && !w.objects[p].cancelled));
    if w.objects[p].holder.Some? {
      var u := w.objects[p].holder.value;
      hide Step, Locks, CanGrow;
      later := [Answer(u, ZERO)];
      Answers(w, u, p, ZERO);
      OneMore([], Answer(u, ZERO), w);
      assert [] + [Answer(u, ZERO)] == later && Steps([], w) == w;
    } else {
      assert w.tasks[t].Waiting?;
      hide Step, Locks, CanGrow;
      later := [] + [Acquire(t, Forwarded)] + [Answer(t, ZERO)];
      Forwards(w, t, p, w.objects[p].nextSeq);
      OneMore([], Acquire(t, Forwarded), w);
      var x := Step(Acquire(t, Forwarded), w);
      Answers(x, t, p, ZERO);
      OneMore([] + [Acquire(t, Forwarded)], Answer(t, ZERO), w);
    }
  }

  /** The promise of the lock, exactly: over every continuation the popped session's answers stay those the
      consumption returned if and only if, at the pop, no task is upstream on it, and it is cancelled or no waiting
      task carries the number it admits next. */
  lemma PopMissesNothingExactlyWhen(es: seq<Event>, t: int, o: nat, jti: string)
    requires var w := Steps(es, START);
             t in w.tasks && w.tasks[t] == Consuming(o, jti) && o < |w.objects| && w.objects[o].holder == None
               && jti in w.table
    ensures var w := Steps(es, START);
      var p, x := w.table[jti], Step(ConsumeAcquire(t), w);
      && p < |x.objects| && x.receipts[|x.receipts| - 1].covered == x.objects[p].answered
      && ((forall later :: Unchanged(later, x, p)) <==>
            (forall u | u in w.tasks :: w.tasks[u] != Upstream(p))
            && (w.objects[p].cancelled || forall u | u in w.tasks :: w.tasks[u] != Waiting(p, w.objects[p].nextSeq)))
  {
    InvariantAlways(es);
    var w := Steps(es, START);
    var p, x := w.table[jti], Step(ConsumeAcquire(t), w);
    ConsumptionReturnsAllAnswered(es, t, o, jti);
    StepKeepsInvariant(ConsumeAcquire(t), w);
    assert x.tasks == w.tasks[t := Finished];
    SameTasksGrow(w, x, t, p);
    if CanGrow(x, p) {
      var later := GrowsByOne(x, p);
    } else {
      forall later ensures Unchanged(later, x, p) { DetachedStays(later, x, p); }
    }
  }

  lemma SameTasksGrow(w: World, x: World, t: int, p: nat)
    requires x.objects == w.objects && p < |w.objects| && t in w.tasks && w.tasks[t].Consuming?
    requires x.tasks == w.tasks[t := Finished]
    ensures CanGrow(x, p) <==>
            (exists u | u in w.tasks :: w.tasks[u] == Upstream(p))
            || (!w.objects[p].cancelled && exists u | u in w.tasks :: w.tasks[u] == Waiting(p, w.objects[p].nextSeq))
  {
    if u :| u in w.tasks && w.tasks[u] == Upstream(p) { assert x.tasks[u] == Upstream(p); }
    if u :| u in w.tasks && w.tasks[u] == Waiting(p, w.objects[p].nextSeq) { assert x.tasks[u] == w.tasks[u]; }
  }

  // ---------------------------------------------------------------- what cancelling does

  lemma {:induction false} StepsConcat(a: seq<Event>, b: seq<Event>, w: World)
    ensures Steps(a + b, w) == Steps(b, Steps(a, w))
    decreases |b|
  {
    hide Step;
    if b == [] {
      assert a + b == a;
    } else {
      assert (a + b)[..|a + b| - 1] == a + b[..|b| - 1];
      StepsConcat(a, b[..|b| - 1], w);
    }
  }

  /** A cancelled session since it was `was`: the request then upstream may have been answered, and no more. */
  predicate Frozen(was: Session, s: Session) {
    && s.cancelled && s.admitted == was.admitted && s.nextSeq == was.nextSeq
    && if s.answered == was.answered then s.holder == was.holder || s.holder == None
       else was.holder.Some? && s.holder == None && |s.answered| == |was.answered| + 1 && was.answered <= s.answered
  }

  lemma StaysFrozen(e: Event, w: World, o: nat, was: Session)
    requires Locks(w) && o < |w.objects| && Frozen(was, w.objects[o])
    ensures var x := Step(e, w); o < |x.objects| && Frozen(was, x.objects[o])
  {
  }

  lemma {:induction false} FrozenForEver(es: seq<Event>, later: seq<Event>, o: nat, was: Session)
    requires var w := Steps(es, START); o < |w.objects| && Frozen(was, w.objects[o])
    ensures var x := Steps(es + later, START); o < |x.objects| && Frozen(was, x.objects[o])
    decreases |later|
  {
    if later == [] {
      assert es + later == es;
    } else {
      var init := later[..|later| - 1];
      FrozenForEver(es, init, o, was);
      assert (es + later)[..|es + later| - 1] == es + init;
      InvariantAlways(es + init);
      hide Step, Frozen, Locks, Receipts, Balanced;
      StaysFrozen(later[|later| - 1], Steps(es + init, START), o, was);
    }
  }

  lemma CancelFreezes(es: seq<Event>, jti: string)
    requires jti in Steps(es, START).table
    ensures var w, x := Steps(es, START), Steps(es + [CancelSession(jti)], START);
            var o := w.table[jti];
            o < |w.objects| && o < |x.objects| && Frozen(w.objects[o], x.objects[o])
  {
    InvariantAlways(es);
    OneMore(es, CancelSession(jti), START);
  }

  /** A cancelled session never admits another request, over every continuation, and is answered once more at most:
      for the request that was upstream when it was cancelled. */
  lemma CancelledAdmitsNothing(es: seq<Event>, jti: string, later: seq<Event>)
    requires jti in Steps(es, START).table
    ensures var w, x := Steps(es, START), Steps(es + [CancelSession(jti)] + later, START);
            var o := w.table[jti];
            && o < |w.objects| && o < |x.objects|
            && x.objects[o].admitted == w.objects[o].admitted
            && w.objects[o].answered <= x.objects[o].answered
            && |x.objects[o].answered| <= |w.objects[o].answered| + if w.objects[o].holder.Some? then 1 else 0
  {
    CancelFreezes(es, jti);
    FrozenForEver(es + [CancelSession(jti)], later, Steps(es, START).table[jti], Steps(es, START).objects[
      Steps(es, START).table[jti]]);
  }

  /** Cancelling before consuming, as the executor does, misses nothing whenever the session cancelled is the one
      locked and the one popped, whatever happens in between. */
  lemma CancelThenConsumeMissesNothing(before: seq<Event>, between: seq<Event>, t: int, o: nat, jti: string,
      later: seq<Event>)
    requires var w := Steps(before, START); jti in w.table && w.table[jti] == o
    requires var w := Steps(before + [CancelSession(jti)] + between, START);
             && t in w.tasks && w.tasks[t] == Consuming(o, jti) && o < |w.objects| && w.objects[o].holder == None
             && jti in w.table && w.table[jti] == o
    ensures var x := Step(ConsumeAcquire(t), Steps(before + [CancelSession(jti)] + between, START));
            o < |x.objects| && Unchanged(later, x, o)
  {
    var es := before + [CancelSession(jti)] + between;
    CancelFreezes(before, jti);
    FrozenForEver(before + [CancelSession(jti)], between, o, Steps(before, START).objects[o]);
    InvariantAlways(es);
    PopMissesNothingExactlyWhen(es, t, o, jti);
    var w := Steps(es, START);
    assert w.objects[o].cancelled;
    forall u | u in w.tasks ensures w.tasks[u] != Upstream(o) { }
  }

  // ---------------------------------------------------------------- what one request does

  lemma RefusedUnderLock(w: World, t: int, o: nat, number: int, verdict: Verdict, end: Event)
    requires t in w.tasks && w.tasks[t] == Waiting(o, number) && o < |w.objects| && w.objects[o].holder == None
    requires w.objects[o].cancelled || number != w.objects[o].nextSeq
    requires (end.Answer? || end.Fail? || end.Abandon?) && end.task == t
    ensures Step(end, Step(Acquire(t, verdict), w)) == w.(tasks := w.tasks[t := Finished])
  {
    assert w.tasks[t := Finished][t := Finished] == w.tasks[t := Finished];
  }

  lemma OutcomeUnderLock(w: World, t: int, o: nat, number: int, verdict: Verdict, end: Event)
    requires t in w.tasks && w.tasks[t] == Waiting(o, number) && o < |w.objects| && w.objects[o].holder == None
    requires w.objects[o].nextSeq == |w.objects[o].admitted| + 1
    requires (end.Answer? || end.Fail? || end.Abandon?) && end.task == t
    ensures var x := Step(end, Step(Acquire(t, verdict), w));
            && x.table == w.table && |x.objects| == |w.objects| && x.tasks == w.tasks[t := Finished]
            && (forall q | 0 <= q < |w.objects| && q != o :: x.objects[q] == w.objects[q])
            && x.objects[o] == AfterRequest(w.objects[o], number, verdict, end)
  {
    hide Plus;
    if w.objects[o].cancelled || number != w.objects[o].nextSeq {
      hide Step;
      RefusedUnderLock(w, t, o, number, verdict, end);
    }
  }

  function AfterRequest(s: Session, number: int, verdict: Verdict, end: Event): Session
    requires end.Answer? || end.Fail? || end.Abandon?
  {
    if s.cancelled || number != s.nextSeq then s
    else
      var s' := s.(nextSeq := s.nextSeq + 1, admitted := s.admitted + [number]);
      if verdict == Expired then s'.(timedOut := true)
      else if verdict == Forwarded && end.Answer? then AnsweredBy(s', end.usage)
      else if verdict == Forwarded && end.Fail? then s'.(timedOut := s.timedOut || end.timeout)
      else s'
  }

  lemma RequestOnSession(was: Session, number: int, verdict: Verdict, end: Event)
    requires was.holder == None && was.nextSeq == |was.admitted| + 1
    requires end.Answer? || end.Fail? || end.Abandon?
    ensures var s, admitted := AfterRequest(was, number, verdict, end), !was.cancelled && number == |was.admitted| + 1;
            && s.holder == None && s.cancelled == was.cancelled
            && s.admitted == was.admitted + (if admitted then [|was.admitted| + 1] else [])
            && s.answered
               == was.answered + (if admitted && verdict == Forwarded && end.Answer? then [end.usage] else [])
            && (s.timedOut <==>
                  || was.timedOut
                  || (admitted && (verdict == Expired || (verdict == Forwarded && end.Fail? && end.timeout))))
  {
  }

  lemma RequestFrom(w: World, t: int, jti: string, number: int, verdict: Verdict, end: Event)
    requires t !in w.tasks && jti in w.table && w.table[jti] < |w.objects| && w.objects[w.table[jti]].holder == None
    requires w.objects[w.table[jti]].nextSeq == |w.objects[w.table[jti]].admitted| + 1
    requires (end.Answer? || end.Fail? || end.Abandon?) && end.task == t
    ensures var x, o := Step(end, Step(Acquire(t, verdict), Step(Arrive(t, jti, number), w))), w.table[jti];
            && x.table == w.table && |x.objects| == |w.objects| && x.tasks == w.tasks[t := Finished]
            && (forall q | 0 <= q < |w.objects| && q != o :: x.objects[q] == w.objects[q])
            && x.objects[o] == AfterRequest(w.objects[o], number, verdict, end)
  {
    var o := w.table[jti];
    RequestWaits(w, t, jti, number);
    hide Step, AfterRequest;
    OutcomeUnderLock(w.(tasks := w.tasks[t := Waiting(o, number)]), t, o, number, verdict, end);
    assert w.tasks[t := Waiting(o, number)][t := Finished] == w.tasks[t := Finished];
  }

  /** What one request does from any reachable world where the session's lock is free.  It is admitted exactly when it
      carries the next number and the session is not cancelled; its number is then consumed whatever becomes of it, it
      is counted only if it is forwarded and answered, and afterwards the lock is free again.  Nothing else
      changes. */
  lemma RequestOutcome(es: seq<Event>, t: int, jti: string, number: int, verdict: Verdict, end: Event)
    requires var w := Steps(es, START);
             t !in w.tasks && jti in w.table && w.table[jti] < |w.objects| && w.objects[w.table[jti]].holder == None
    requires (end.Answer? || end.Fail? || end.Abandon?) && end.task == t
    ensures var w := Steps(es, START);
            var x, o := Step(end, Step(Acquire(t, verdict), Step(Arrive(t, jti, number), w))), w.table[jti];
            && x.table == w.table && |x.objects| == |w.objects| && x.tasks == w.tasks[t := Finished]
            && (forall q | 0 <= q < |w.objects| && q != o :: x.objects[q] == w.objects[q])
            && var was, s := w.objects[o], x.objects[o];
               var admitted := !was.cancelled && number == |was.admitted| + 1;
               && s.holder == None && s.cancelled == was.cancelled
               && s.admitted == was.admitted + (if admitted then [|was.admitted| + 1] else [])
               && s.answered
                  == was.answered + (if admitted && verdict == Forwarded && end.Answer? then [end.usage] else [])
               && (s.timedOut <==>
                     || was.timedOut
                     || (admitted && (verdict == Expired || (verdict == Forwarded && end.Fail? && end.timeout))))
  {
    InvariantAlways(es);
    var w := Steps(es, START);
    var o := w.table[jti];
    assert Balanced(w.objects[o]);
    hide Balanced, Step, Steps, Invariant, AfterRequest;
    RequestOnSession(w.objects[o], number, verdict, end);
    RequestFrom(w, t, jti, number, verdict, end);
  }

  // ---------------------------------------------------------------- two runs that lose answers

  lemma OneMore(es: seq<Event>, e: Event, w: World)
    ensures Steps(es + [e], w) == Step(e, Steps(es, w))
  {
    assert (es + [e])[..|es|] == es;
  }

  /** One more step of a concrete run. */
  lemma Extend(es: seq<Event>, e: Event, w: World, x: World)
    requires Steps(es, START) == w && Step(e, w) == x
    ensures Steps(es + [e], START) == x
  {
    OneMore(es, e, START);
  }

  lemma ConsumptionWaits(w: World, t: int, jti: string)
    requires t !in w.tasks && jti in w.table
    ensures Step(ConsumeArrive(t, jti), w) == w.(tasks := w.tasks[t := Consuming(w.table[jti], jti)])
  {
  }

  lemma RequestWaits(w: World, t: int, jti: string, number: int)
    requires t !in w.tasks && jti in w.table
    ensures Step(Arrive(t, jti, number), w) == w.(tasks := w.tasks[t := Waiting(w.table[jti], number)])
  {
  }

  lemma RequestRecreates(w: World, t: int, jti: string, number: int)
    requires t !in w.tasks && jti !in w.table
    ensures Step(Arrive(t, jti, number), w)
         == w.(objects := w.objects + [NEW_SESSION], table := w.table[jti := |w.objects|],
           tasks := w.tasks[t := Waiting(|w.objects|, number)])
  {
  }

  lemma Pops(w: World, t: int, o: nat, jti: string)
    requires t in w.tasks && w.tasks[t] == Consuming(o, jti) && o < |w.objects| && w.objects[o].holder == None
    requires jti in w.table && w.table[jti] < |w.objects|
    ensures var s := w.objects[w.table[jti]];
      Step(ConsumeAcquire(t), w)
      == w.(table := w.table - {jti}, tasks := w.tasks[t := Finished],
            receipts := w.receipts + [Receipt(o, Some(w.table[jti]), s.ledger, s.timedOut, s.answered)])
  {
  }

  const HELD := NEW_SESSION.(nextSeq := 2, admitted := [1], holder := Some(1))

  function Served(u: Totals): Session { HELD.(ledger := Plus(ZERO, u), count := 1, holder := None, answered := [u]) }

  /** Task 1 is upstream with request number 1. */
  function Opening(): seq<Event> { [] + [Issue("j")] + [Arrive(1, "j", 1)] + [Acquire(1, Forwarded)] }

  lemma IssueCreates(jti: string)
    ensures Steps([], START) == START
    ensures Step(Issue(jti), START) == World([NEW_SESSION], map[jti := 0], map[], [])
  {
    assert START.objects + [NEW_SESSION] == [NEW_SESSION] && START.table[jti := 0] == map[jti := 0];
  }

  lemma AfterOpening()
    ensures Steps(Opening(), START) == World([HELD], map["j" := 0], map[1 := Upstream(0)], [])
  {
    IssueCreates("j");
    hide Step, Steps;
    var w1 := World([NEW_SESSION], map["j" := 0], map[], []);
    var w2 := w1.(tasks := map[1 := Waiting(0, 1)]);
    var w3 := World([HELD], map["j" := 0], map[1 := Upstream(0)], []);
    Extend([], Issue("j"), START, w1);
    RequestWaits(w1, 1, "j", 1);
    Extend([] + [Issue("j")], Arrive(1, "j", 1), w1, w2);
    assert w2.objects[0 := HELD] == w3.objects && NEW_SESSION.admitted + [1] == [1];
    assert w2.tasks[1 := Upstream(0)] == w3.tasks;
    Forwards(w2, 1, 0, 1);
    Extend([] + [Issue("j")] + [Arrive(1, "j", 1)], Acquire(1, Forwarded), w2, w3);
  }

  /** A consumption queues behind request 1, and request 2 behind the consumption; then request 1 is answered. */
  function Queued(u: Totals): seq<Event> { Opening() + [ConsumeArrive(2, "j")] + [Arrive(3, "j", 2)] + [Answer(1, u)] }

  function AfterQueued(u: Totals): World {
    World([Served(u)], map["j" := 0], map[1 := Finished, 2 := Consuming(0, "j"), 3 := Waiting(0, 2)], [])
  }

  function BothQueued(): World {
    World([HELD], map["j" := 0], map[1 := Upstream(0), 2 := Consuming(0, "j"), 3 := Waiting(0, 2)], [])
  }

  lemma QueuedFirst()
    ensures Steps(Opening() + [ConsumeArrive(2, "j")] + [Arrive(3, "j", 2)], START) == BothQueued()
  {
    var e3, w3 := Opening(), World([HELD], map["j" := 0], map[1 := Upstream(0)], []);
    AfterOpening();
    hide Step, Steps, Opening;
    var w4 := w3.(tasks := w3.tasks[2 := Consuming(0, "j")]);
    ConsumptionWaits(w3, 2, "j");
    Extend(e3, ConsumeArrive(2, "j"), w3, w4);
    RequestWaits(w4, 3, "j", 2);
    Extend(e3 + [ConsumeArrive(2, "j")], Arrive(3, "j", 2), w4, BothQueued());
  }

  lemma QueueBehind(u: Totals)
    ensures Steps(Queued(u), START) == AfterQueued(u)
  {
    QueuedFirst();
    hide Step, Steps, Opening, Plus;
    var w5 := BothQueued();
    assert w5.objects[0 := Served(u)] == AfterQueued(u).objects && HELD.answered + [u] == [u];
    assert w5.tasks[1 := Finished] == AfterQueued(u).tasks;
    Answers(w5, 1, 0, u);
    Extend(Opening() + [ConsumeArrive(2, "j")] + [Arrive(3, "j", 2)], Answer(1, u), w5, AfterQueued(u));
  }

  /** The consumption returns request 1's tokens; request 2 is then admitted on the popped session, and its tokens
      are returned by nobody. */
  lemma QueuedRequestOutlivesPop(u: Totals, v: Totals)
    ensures var w := Steps(Queued(u) + [ConsumeAcquire(2)] + [Acquire(3, Forwarded)] + [Answer(3, v)], START);
            && |w.objects| == 1 && w.table == map[] && w.objects[0].answered == [u, v]
            && w.receipts == [Receipt(0, Some(0), Sum([u]), false, [u])]
  {
    var e6, w6 := Queued(u), AfterQueued(u);
    QueueBehind(u);
    hide Step, Steps, Queued;
    var w7 := w6.(table := map[], tasks := w6.tasks[2 := Finished],
      receipts := [Receipt(0, Some(0), Plus(ZERO, u), false, [u])]);
    assert w6.table - {"j"} == map[] && [] + w7.receipts == w7.receipts;
    Pops(w6, 2, 0, "j");
    Extend(e6, ConsumeAcquire(2), w6, w7);
    var e7 := e6 + [ConsumeAcquire(2)];
    var busy := Served(u).(nextSeq := 3, admitted := [1, 2], holder := Some(3));
    var w8 := w7.(objects := [busy], tasks := w7.tasks[3 := Upstream(0)]);
    assert Served(u).admitted + [2] == [1, 2] && w7.objects[0 := busy] == w8.objects;
    Forwards(w7, 3, 0, 2);
    Extend(e7, Acquire(3, Forwarded), w7, w8);
    var w9 := Step(Answer(3, v), w8);
    Answers(w8, 3, 0, v);
    Extend(e7 + [Acquire(3, Forwarded)], Answer(3, v), w8, w9);
    assert [u] + [v] == [u, v];
    SumOfOne(u);
  }

  lemma SumOfOne(u: Totals)
    ensures Sum([u]) == Plus(ZERO, u)
  {
    SumOfOneMore([], u);
    assert [] + [u] == [u];
  }

  /** Two consumptions queue behind request 1.  The first pops its session; a request then re-creates it and is
      upstream on the new one when the second consumption gets the old lock and pops the new session, whose
      tokens nobody returns. */
  function Stale(u: Totals): seq<Event> {
    Opening() + [ConsumeArrive(2, "j")] + [ConsumeArrive(3, "j")] + [Answer(1, u)] + [ConsumeAcquire(2)]
  }

  function AfterStale(u: Totals): World {
    World([Served(u)], map[], map[1 := Finished, 2 := Finished, 3 := Consuming(0, "j")],
          [Receipt(0, Some(0), Plus(ZERO, u), false, [u])])
  }

  function TwoWaiting(first: Task): map<int, Task> { map[1 := first, 2 := Consuming(0, "j"), 3 := Consuming(0, "j")] }

  lemma BothWait()
    ensures Steps(Opening() + [ConsumeArrive(2, "j")] + [ConsumeArrive(3, "j")], START)
         == World([HELD], map["j" := 0], TwoWaiting(Upstream(0)), [])
  {
    var e3, w3 := Opening(), World([HELD], map["j" := 0], map[1 := Upstream(0)], []);
    AfterOpening();
    hide Step, Steps, Opening;
    var w4 := w3.(tasks := map[1 := Upstream(0), 2 := Consuming(0, "j")]);
    ConsumptionWaits(w3, 2, "j");
    Extend(e3, ConsumeArrive(2, "j"), w3, w4);
    ConsumptionWaits(w4, 3, "j");
    Extend(e3 + [ConsumeArrive(2, "j")], ConsumeArrive(3, "j"), w4, w4.(tasks := TwoWaiting(Upstream(0))));
  }

  lemma FirstConsumption(u: Totals)
    ensures Steps(Stale(u), START) == AfterStale(u)
  {
    BothWait();
    hide Step, Steps, Opening;
    var e5 := Opening() + [ConsumeArrive(2, "j")] + [ConsumeArrive(3, "j")];
    var w5 := World([HELD], map["j" := 0], TwoWaiting(Upstream(0)), []);
    var w6 := w5.(objects := [Served(u)], tasks := TwoWaiting(Finished));
    assert w5.objects[0 := Served(u)] == w6.objects && HELD.answered + [u] == [u];
    assert w5.tasks[1 := Finished] == w6.tasks;
    Answers(w5, 1, 0, u);
    Extend(e5, Answer(1, u), w5, w6);
    assert w6.table - {"j"} == map[] && [] + AfterStale(u).receipts == AfterStale(u).receipts;
    assert w6.tasks[2 := Finished] == AfterStale(u).tasks;
    Pops(w6, 2, 0, "j");
    Extend(e5 + [Answer(1, u)], ConsumeAcquire(2), w6, AfterStale(u));
  }

  lemma StaleLockLosesTokens(u: Totals, v: Totals)
    ensures var w := Steps(Stale(u) + [Arrive(4, "j", 1)] + [Acquire(4, Forwarded)] + [ConsumeAcquire(3)]
      + [Answer(4, v)], START);
            && |w.objects| == 2 && w.table == map[] && w.objects[1].answered == [v]
            && w.receipts == [Receipt(0, Some(0), Sum([u]), false, [u]), Receipt(0, Some(1), ZERO, false, [])]
  {
    var e1, w1 := Stale(u), AfterStale(u);
    FirstConsumption(u);
    hide Step, Steps, Stale;
    var w2 := w1.(objects := [Served(u), NEW_SESSION], table := map["j" := 1], tasks := w1.tasks[4 := Waiting(1, 1)]);
    assert w1.objects + [NEW_SESSION] == w2.objects;
    RequestRecreates(w1, 4, "j", 1);
    Extend(e1, Arrive(4, "j", 1), w1, w2);
    var e2 := e1 + [Arrive(4, "j", 1)];
    var busy := NEW_SESSION.(nextSeq := 2, admitted := [1], holder := Some(4));
    var w3 := w2.(objects := [Served(u), busy], tasks := w2.tasks[4 := Upstream(1)]);
    assert w2.objects[1 := busy] == w3.objects && NEW_SESSION.admitted + [1] == [1];
    Forwards(w2, 4, 1, 1);
    Extend(e2, Acquire(4, Forwarded), w2, w3);
    var e3 := e2 + [Acquire(4, Forwarded)];
    var w4 := w3.(table := map[], tasks := w3.tasks[3 := Finished],
                  receipts := w1.receipts + [Receipt(0, Some(1), ZERO, false, [])]);
    assert w3.table - {"j"} == map[];
    Pops(w3, 3, 0, "j");
    Extend(e3, ConsumeAcquire(3), w3, w4);
    var w5 := Step(Answer(4, v), w4);
    Answers(w4, 4, 1, v);
    Extend(e3 + [ConsumeAcquire(3)], Answer(4, v), w4, w5);
    assert [] + [v] == [v];
    SumOfOne(u);
  }
}
