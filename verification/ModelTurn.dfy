/** The sandbox's turn loop against the proxy's request handler: sequence numbers stay in lockstep, and what the
    loop delivers, and with which totals. */
module ModelTurn {
  import opened ModelMessages
  import opened Options
  import opened TokenTotals

  datatype Upstream = Answered(message: Message) | NotJson | UpstreamError | SessionCancelled | DeadlineHit

  /** What the loop may get instead of a response. */
  datatype Loss = Cancellation | Deadline | Transport

  /** Whether the loop got the response, and if not whether the proxy had handled the request all the same. */
  datatype Delivery = Delivered | Lost(reached: bool, loss: Loss)

  /** Everything outside the two programs during one turn. */
  datatype Turn = Turn(
    cancelledBefore: bool, expiredBefore: bool,    // as the sandbox sees them
    sessionCancelled: bool, expired: bool,         // as the proxy sees them
    upstream: Upstream,
    delivery: Delivery)

  /** `echoed` are the content blocks of earlier answers it carries, and `size` its encoded length. */
  datatype Request = Request(
    number: int, model: string, maxTokens: int, tools: seq<string>, messages: nat, echoed: seq<Fields>, size: nat,
      bound: bool)

  datatype Capability = Capability(model: string, tools: set<string>, endpoint: string)

  datatype Category =
    | Fine | TooLarge | Cancelled | IdentityMismatch | SequenceMismatch | InvalidShape | MaxTokensExceeded
    | MissingMessages | ModelMismatch | ForbiddenTool | DeadlineExpired | EndpointMismatch | UpstreamFailed

  datatype Response = Response(category: Category, message: Message)

  const NO_MESSAGE := Message(false, OtherReason, [], NoUsage, 0)

  /** Refusals a sandbox that is in step with its proxy never sees. */
  const OUT_OF_STEP := {IdentityMismatch, SequenceMismatch, MaxTokensExceeded, MissingMessages, ModelMismatch,
    ForbiddenTool, EndpointMismatch}

  function StripSlashes(url: string): string {
    if url != [] && url[|url| - 1] == '/' then StripSlashes(url[..|url| - 1]) else url
  }

  lemma {:induction false} StripSlashesSays(url: string)
    ensures var r := StripSlashes(url);
            && r <= url && (r != [] ==> r[|r| - 1] != '/') && forall i | |r| <= i < |url| :: url[i] == '/'
  {
    if url != [] && url[|url| - 1] == '/' { StripSlashesSays(url[..|url| - 1]); }
  }

  /** The capability `issue_capability` signs for a job, as far as `handle` checks it. */
  function Issued(model: string, tools: set<string>, apiUrl: string): Capability {
    Capability(model, tools, StripSlashes(apiUrl) + "/v1/messages")
  }

  class Proxy {
    const cap: Capability
    const maxTokens: int
    const maxBody: nat
    const apiUrl: string
    var nextSeq: nat
    var ledger: Totals
    var count: nat
    var timedOut: bool

    constructor (cap: Capability, maxTokens: int, maxBody: nat, apiUrl: string)
      ensures this.cap == cap && this.maxTokens == maxTokens && this.maxBody == maxBody && this.apiUrl == apiUrl
      ensures nextSeq == 1 && ledger == ZERO && count == 0 && !timedOut
    {
      this.cap, this.maxTokens, this.maxBody, this.apiUrl := cap, maxTokens, maxBody, apiUrl;
      nextSeq, ledger, count, timedOut := 1, ZERO, 0, false;
    }

    /** `handle`, for a request that carries the session's capability. */
    method Handle(r: Request, t: Turn) returns (response: Response)
      modifies this
      ensures response.category == TooLarge <==> r.size > maxBody
      ensures response.category == Cancelled <==> r.size <= maxBody && t.sessionCancelled
      ensures var admitted := r.size <= maxBody && !t.sessionCancelled && r.bound && r.number == old(nextSeq);
              && nextSeq == old(nextSeq) + (if admitted then 1 else 0)
              && (!admitted <==> response.category in {TooLarge, Cancelled, IdentityMismatch, SequenceMismatch})
              && (response.category == InvalidShape <==> admitted && !(AllFit(r.echoed) && 1 <= r.maxTokens))
              && (response.category == MaxTokensExceeded <==>
                    admitted && AllFit(r.echoed) && 1 <= r.maxTokens && r.maxTokens > maxTokens)
      ensures response.category == SequenceMismatch ==> r.number != old(nextSeq)
      ensures response.category == IdentityMismatch ==> !r.bound
      ensures response.category == MissingMessages ==> r.messages == 0
      ensures response.category == ModelMismatch ==> r.model != cap.model
      ensures response.category == ForbiddenTool ==> exists n | n in r.tools :: n !in cap.tools
      ensures response.category == EndpointMismatch ==> !(StripSlashes(apiUrl) <= cap.endpoint)
      ensures response.category == DeadlineExpired ==> t.expired
      ensures response.category in {Fine, UpstreamFailed, DeadlineExpired, EndpointMismatch} ==>
                && AllFit(r.echoed) && 1 <= r.maxTokens <= maxTokens && r.messages > 0 && r.model == cap.model
                && forall n | n in r.tools :: n in cap.tools
      ensures response.category in {Fine, UpstreamFailed} ==>
                !t.expired && StripSlashes(apiUrl) <= cap.endpoint
                  && (response.category == Fine <==> t.upstream.Answered?)
      ensures response.category == Fine ==>
                && t.upstream == Answered(response.message)
                && ledger == Plus(old(ledger), Counted(response.message.usage)) && count == old(count) + 1
      ensures response.category != Fine ==>
                ledger == old(ledger) && count == old(count) && response.message == NO_MESSAGE
      ensures timedOut <==> old(timedOut) || response.category == DeadlineExpired
                            || (response.category == UpstreamFailed && t.upstream.DeadlineHit?)
    {
      hide Fits, Plus, Counted, StripSlashes;
      if r.size > maxBody { return Response(TooLarge, NO_MESSAGE); }
      if t.sessionCancelled { return Response(Cancelled, NO_MESSAGE); }
      if !r.bound { return Response(IdentityMismatch, NO_MESSAGE); }
      if r.number != nextSeq { return Response(SequenceMismatch, NO_MESSAGE); }
      nextSeq := nextSeq + 1;
      var i := 0;
      while i < |r.echoed|
        invariant 0 <= i <= |r.echoed| && forall k | 0 <= k < i :: Fits(r.echoed[k])
      {
        if !Fits(r.echoed[i]) { return Response(InvalidShape, NO_MESSAGE); }
        i := i + 1;
      }
      if r.maxTokens < 1 { return Response(InvalidShape, NO_MESSAGE); }
      if r.maxTokens > maxTokens { return Response(MaxTokensExceeded, NO_MESSAGE); }
      if r.messages == 0 { return Response(MissingMessages, NO_MESSAGE); }
      if r.model != cap.model { return Response(ModelMismatch, NO_MESSAGE); }
      i := 0;
      while i < |r.tools|
        invariant 0 <= i <= |r.tools| && forall k | 0 <= k < i :: r.tools[k] in cap.tools
      {
        if r.tools[i] !in cap.tools { return Response(ForbiddenTool, NO_MESSAGE); }
        i := i + 1;
      }
      if t.expired {
        timedOut := true;
        return Response(DeadlineExpired, NO_MESSAGE);
      }
      if !(StripSlashes(apiUrl) <= cap.endpoint) { return Response(EndpointMismatch, NO_MESSAGE); }
      match t.upstream {
        case Answered(message) =>
          ledger, count := Plus(ledger, Counted(message.usage)), count + 1;
          return Response(Fine, message);
        case DeadlineHit =>
          timedOut := true;
          return Response(UpstreamFailed, NO_MESSAGE);
        case _ =>
          return Response(UpstreamFailed, NO_MESSAGE);
      }
    }
  }

  // ---------------------------------------------------------------- the loop's side

  /** One request as it reached the proxy, the number the proxy expected just then, and the answer. */
  datatype Exchange = Exchange(number: nat, expected: nat, response: Response)

  datatype Failure = CancelledRun | Timeout | ModelError | ForbiddenToolRun | ToolFailed | OutputError

  datatype Result = Artifact(totals: Totals) | Failed(failure: Failure)

  function LossFailure(loss: Loss): Failure {
    match loss
    case Cancellation => CancelledRun
    case Deadline => Timeout
    case Transport => ModelError
  }

  const TOOL_NAMES := ["finish", "list_priors", "read_prior_context", "read_transcript", "report_failure",
                       "search_transcript", "write_output"]

  /** `_tool_definitions`: the known tools the job allows, in name order. */
  function ToolDefinitions(allowed: set<string>, names: seq<string>): (r: seq<string>)
    ensures forall n :: n in r <==> n in names && n in allowed
  {
    if names == [] then []
    else (if names[0] in allowed then [names[0]] else []) + ToolDefinitions(allowed, names[1..])
  }

  datatype ToolOutcome = Continue(wrote: bool, finished: bool) | Stop(failure: Failure)

  predicate AllRun(tools: seq<ToolCall>, allowed: set<string>) {
    forall i | 0 <= i < |tools| :: tools[i].name in allowed && !tools[i].fails
  }

  /** What stops the calls of one response: the first that is forbidden or fails. */
  function FirstStop(tools: seq<ToolCall>, allowed: set<string>): Option<Failure> {
    if tools == [] then None
    else if tools[0].name !in allowed then Some(ForbiddenToolRun)
    else if tools[0].fails then Some(ToolFailed)
    else FirstStop(tools[1..], allowed)
  }

  lemma {:induction false} FirstStopIs(tools: seq<ToolCall>, allowed: set<string>, i: nat)
    requires i < |tools| && (tools[i].name !in allowed || tools[i].fails)
    requires forall k | 0 <= k < i :: tools[k].name in allowed && !tools[k].fails
    ensures FirstStop(tools, allowed) == Some(if tools[i].name !in allowed then ForbiddenToolRun else ToolFailed)
  {
    if i > 0 {
      assert tools[0].name in allowed;
      FirstStopIs(tools[1..], allowed, i - 1);
    }
  }

  predicate Calls(tools: seq<ToolCall>, name: string) { exists i | 0 <= i < |tools| :: tools[i].name == name }

  /** The tool calls of one response, in order, up to the first failure. */
  method RunTools(tools: seq<ToolCall>, allowed: set<string>) returns (o: ToolOutcome)
    ensures o.Continue? <==> AllRun(tools, allowed)
    ensures o.Continue? ==> (o.wrote <==> Calls(tools, "write_output")) && (o.finished <==> Calls(tools, "finish"))
    ensures o.Stop? ==> FirstStop(tools, allowed) == Some(o.failure)
  {
    var wrote, finished, i := false, false, 0;
    while i < |tools|
      invariant 0 <= i <= |tools|
      invariant forall k | 0 <= k < i :: tools[k].name in allowed && !tools[k].fails
      invariant wrote <==> exists k | 0 <= k < i :: tools[k].name == "write_output"
      invariant finished <==> exists k | 0 <= k < i :: tools[k].name == "finish"
    {
      if tools[i].name !in allowed || tools[i].fails { FirstStopIs(tools, allowed, i); }
      if tools[i].name !in allowed { return Stop(ForbiddenToolRun); }
      if tools[i].fails { return Stop(ToolFailed); }
      if tools[i].name == "write_output" { wrote := true; }
      if tools[i].name == "finish" { finished := true; }
      i := i + 1;
    }
    o := Continue(wrote, finished);
  }

  // ---------------------------------------------------------------- which runs deliver

  datatype Limits = Limits(tokens: int, body: nat)

  /** How far a run has come: whether every answer so far holds only fields the proxy knows, how large the next
      request is, whether the output was written, and the totals. */
  datatype Progress = Progress(known: bool, size: nat, wrote: bool, totals: Totals)

  function Advance(p: Progress, m: Message): Progress {
    Progress(p.known && OnlyKnownFields(m), p.size + m.size, p.wrote || Calls(ToolCalls(m.blocks), "write_output"),
             Plus(p.totals, Seen(m.usage)))
  }

  /** The turn's request is accepted and hands the loop a response it accepts. */
  predicate Usable(t: Turn, limits: Limits, p: Progress) {
    && !t.cancelledBefore && !t.expiredBefore && !t.sessionCancelled && !t.expired
    && p.known && p.size <= limits.body && 4096 <= limits.tokens
    && t.upstream.Answered? && Parses(t.upstream.message) && t.delivery == Delivered
  }

  predicate Closes(m: Message) { (m.stop == EndTurn || m.stop == StopSequence) && ToolCalls(m.blocks) == [] }

  predicate Works(m: Message, allowed: set<string>) {
    m.stop == ToolUse && ToolCalls(m.blocks) != [] && AllRun(ToolCalls(m.blocks), allowed)
  }

  /** The turn's request reaches the proxy. */
  predicate Reaches(t: Turn) {
    !t.cancelledBefore && !t.expiredBefore && (t.delivery.Lost? ==> t.delivery.reached)
  }

  /** What the loop reports about a turn that is not usable. */
  function Trouble(t: Turn): Failure {
    if t.cancelledBefore then CancelledRun
    else if t.expiredBefore then Timeout
    else if t.delivery.Lost? && t.delivery.loss == Cancellation then CancelledRun
    else if t.delivery.Lost? && t.delivery.loss == Deadline then Timeout
    else ModelError
  }

  /** What the loop reports about an answer that neither closes the run nor works. */
  function Refused(m: Message, allowed: set<string>): Failure {
    var tools := ToolCalls(m.blocks);
    var stop := if m.stop == ToolUse && tools != [] then FirstStop(tools, allowed) else None;
    if stop.Some? then stop.value else ModelError
  }

  function Delivers(p: Progress): Result { if p.wrote then Artifact(p.totals) else Failed(OutputError) }

  /** How a run ends, before its output is collected, and how many requests have reached the proxy. */
  datatype Ending = Ending(result: Result, requests: nat)

  /** How the turns from `k` on end: with the totals, if the output was written by the turn that ends the run and
      no turn up to it failed, and otherwise with the first failure. */
  function EndOf(turns: seq<Turn>, k: nat, allowed: set<string>, limits: Limits, p: Progress): Ending
    decreases |turns| - k
  {
    if k >= |turns| then Ending(Delivers(p), 0)
    else if !Usable(turns[k], limits, p) then Ending(Failed(Trouble(turns[k])), if Reaches(turns[k]) then 1 else 0)
    else
      var m := turns[k].upstream.message;
      if Closes(m) then Ending(Delivers(Advance(p, m)), 1)
      else if !Works(m, allowed) then Ending(Failed(Refused(m, allowed)), 1)
      else if Calls(ToolCalls(m.blocks), "finish") then Ending(Delivers(Advance(p, m)), 1)
      else
        var rest := EndOf(turns, k + 1, allowed, limits, Advance(p, m));
        Ending(rest.result, 1 + rest.requests)
  }

  lemma EndUnfold(turns: seq<Turn>, k: nat, allowed: set<string>, limits: Limits, p: Progress)
    ensures k >= |turns| ==> EndOf(turns, k, allowed, limits, p) == Ending(Delivers(p), 0)
    ensures k < |turns| && !Usable(turns[k], limits, p) ==>
              EndOf(turns, k, allowed, limits, p)
              == Ending(Failed(Trouble(turns[k])), if Reaches(turns[k]) then 1 else 0)
    ensures k < |turns| && Usable(turns[k], limits, p) ==>
              (var m, e := turns[k].upstream.message, EndOf(turns, k, allowed, limits, p);
               var rest := EndOf(turns, k + 1, allowed, limits, Advance(p, m));
               e == if Closes(m) then Ending(Delivers(Advance(p, m)), 1)
                    else if !Works(m, allowed) then Ending(Failed(Refused(m, allowed)), 1)
                    else if Calls(ToolCalls(m.blocks), "finish") then Ending(Delivers(Advance(p, m)), 1)
                    else Ending(rest.result, 1 + rest.requests))
  {
  }

  /** An answer the sandbox cannot parse ends the run without a delivery: its frame, its usage or one of its blocks is
      not as its model has it.  Unless the turn was disturbed, the loop blames the model. */
  lemma UnparsedAnswerStopsRun(turns: seq<Turn>, k: nat, allowed: set<string>, limits: Limits, p: Progress)
    requires k < |turns| && turns[k].upstream.Answered?
    requires var m := turns[k].upstream.message;
             !m.framed || !TakesUsage(m.usage) || exists b | b in m.blocks :: !TakesBlock(b.fields)
    ensures var r := EndOf(turns, k, allowed, limits, p).result;
            && r.Failed?
            && (!turns[k].cancelledBefore && !turns[k].expiredBefore && turns[k].delivery == Delivered
                ==> r.failure == ModelError)
  {
    hide TakesUsage, TakesBlock;
  }

  lemma ClosingWritesNothing(m: Message)
    requires Closes(m)
    ensures !Calls(ToolCalls(m.blocks), "write_output")
  {
  }

  /** The token counts the sandbox took from text with a decimal point, over the answers of a run. */
  function ExcessIn(log: seq<Exchange>): Totals {
    if log == [] then ZERO else Plus(ExcessIn(log[..|log| - 1]), Excess(log[|log| - 1].response.message.usage))
  }

  lemma {:induction false} NoExcessExactlyWhen(log: seq<Exchange>)
    ensures ExcessIn(log) == ZERO <==> forall k | 0 <= k < |log| :: Excess(log[k].response.message.usage) == ZERO
  {
    hide Plus, Excess;
    if log != [] {
      NoExcessExactlyWhen(log[..|log| - 1]);
      PlusZero(ExcessIn(log[..|log| - 1]), Excess(log[|log| - 1].response.message.usage));
    }
  }

  lemma ExcessOneMore(log: seq<Exchange>, x: Exchange)
    ensures ExcessIn(log + [x]) == Plus(ExcessIn(log), Excess(x.response.message.usage))
  {
    assert (log + [x])[..|log|] == log;
  }

  /** How much the answers of a run have added to the request. */
  function SizeIn(log: seq<Exchange>): nat {
    if log == [] then 0 else SizeIn(log[..|log| - 1]) + log[|log| - 1].response.message.size
  }

  lemma SizeOneMore(log: seq<Exchange>, x: Exchange)
    ensures SizeIn(log + [x]) == SizeIn(log) + x.response.message.size
  {
    assert (log + [x])[..|log|] == log;
  }

  /** Every answer of a run holds only fields the proxy knows. */
  predicate KnownThroughout(log: seq<Exchange>) {
    forall k | 0 <= k < |log| :: OnlyKnownFields(log[k].response.message)
  }

  lemma FitTogether(a: seq<Fields>, b: seq<Fields>)
    ensures AllFit(a + b) <==> AllFit(a) && AllFit(b)
  {
    hide Fits;
    forall i | 0 <= i < |a| ensures (a + b)[i] == a[i] { }
    forall i | 0 <= i < |b| && AllFit(a + b) ensures Fits(b[i]) { assert (a + b)[|a| + i] == b[i]; }
    forall i | 0 <= i < |a| && AllFit(a + b) ensures Fits(a[i]) { assert (a + b)[i] == a[i]; }
  }

  lemma AddTotals(seen: Totals, ledger: Totals, excess: Totals, s: Totals, c: Totals, e: Totals)
    requires seen == Plus(ledger, excess) && s == Plus(c, e)
    ensures Plus(seen, s) == Plus(Plus(ledger, c), Plus(excess, e))
  {
  }

  lemma EndpointMatches(apiUrl: string)
    ensures StripSlashes(apiUrl) <= StripSlashes(apiUrl) + "/v1/messages"
  {
  }

  /** The k-th request of a run: it carries number k, which the proxy expects, and is refused only for what its
      earlier answers brought along, a cancelled session, or a token limit below the loop's own. */
  predicate InStep(log: seq<Exchange>, k: nat, prompt: nat, limits: Limits)
    requires k < |log|
  {
    var c := log[k].response.category;
    && log[k].number == k + 1 == log[k].expected
    && (k < |log| - 1 ==> c == Fine)
    && (c in OUT_OF_STEP ==> c == MaxTokensExceeded && limits.tokens < 4096)
    && (c == TooLarge <==> prompt + SizeIn(log[..k]) > limits.body)
    && (c != TooLarge && c != Cancelled ==> (c == InvalidShape <==> !KnownThroughout(log[..k])))
  }

  predicate AllInStep(log: seq<Exchange>, prompt: nat, limits: Limits) {
    forall k | 0 <= k < |log| :: InStep(log, k, prompt, limits)
  }

  lemma StaysInStep(log: seq<Exchange>, x: Exchange, prompt: nat, limits: Limits)
    requires AllInStep(log, prompt, limits) && (log != [] ==> log[|log| - 1].response.category == Fine)
    requires InStep(log + [x], |log|, prompt, limits)
    ensures AllInStep(log + [x], prompt, limits)
  {
    hide SizeIn, KnownThroughout;
    forall k | 0 <= k < |log| ensures InStep(log + [x], k, prompt, limits) {
      assert InStep(log, k, prompt, limits) && (log + [x])[..k] == log[..k];
    }
  }

  lemma KnownOneMore(log: seq<Exchange>, x: Exchange)
    ensures KnownThroughout(log + [x]) <==> KnownThroughout(log) && OnlyKnownFields(x.response.message)
  {
    hide OnlyKnownFields;
    var all := log + [x];
    forall k | 0 <= k < |log| ensures all[k] == log[k] { }
    assert all[|log|] == x;
    if KnownThroughout(all) {
      forall k | 0 <= k < |log| ensures OnlyKnownFields(log[k].response.message) { assert all[k] == log[k]; }
      assert OnlyKnownFields(all[|log|].response.message);
    }
  }

  /** The loop's record of its answers agrees with its progress. */
  predicate Tracks(log: seq<Exchange>, p: Progress, prompt: nat, ledger: Totals) {
    p.known == KnownThroughout(log) && p.size == prompt + SizeIn(log) && p.totals == Plus(ledger, ExcessIn(log))
  }

  lemma TracksOneMore(log: seq<Exchange>, x: Exchange, p: Progress, prompt: nat, ledger: Totals)
    requires Tracks(log, p, prompt, ledger) && Parses(x.response.message)
    ensures Tracks(log + [x], Advance(p, x.response.message), prompt, Plus(ledger, Counted(x.response.message.usage)))
  {
    var m := x.response.message;
    SidesDifferByDecimalText(m.usage);
    KnownOneMore(log, x);
    SizeOneMore(log, x);
    ExcessOneMore(log, x);
    AddTotals(p.totals, ledger, ExcessIn(log), Seen(m.usage), Counted(m.usage), Excess(m.usage));
    hide Plus, Seen, Counted, Excess, ExcessIn, SizeIn, KnownThroughout, OnlyKnownFields, Parses, Calls, ToolCalls;
  }

  /** One request of a run that is in step: when it is answered, and what the answer does to the run's record. */
  method Ask(proxy: Proxy, request: Request, t: Turn, log: seq<Exchange>, ghost p: Progress, ghost prompt: nat,
      ghost limits: Limits)
    returns (response: Response, newLog: seq<Exchange>)
    requires StripSlashes(proxy.apiUrl) <= proxy.cap.endpoint && limits == Limits(proxy.maxTokens, proxy.maxBody)
    requires request.number == |log| + 1 == proxy.nextSeq && proxy.count == |log| && request.bound
    requires request.model == proxy.cap.model && request.maxTokens == 4096 && request.messages > 0
    requires forall n | n in request.tools :: n in proxy.cap.tools
    requires request.size == p.size && AllFit(request.echoed) == p.known
    requires AllInStep(log, prompt, limits) && Tracks(log, p, prompt, proxy.ledger)
    requires log != [] ==> log[|log| - 1].response.category == Fine
    modifies proxy
    ensures |newLog| == |log| + 1 && newLog[|log|].response == response && AllInStep(newLog, prompt, limits)
    ensures proxy.nextSeq <= |newLog| + 1
    ensures response.category == Fine <==>
            && !t.sessionCancelled && !t.expired && t.upstream.Answered?
            && p.known && p.size <= limits.body && 4096 <= limits.tokens
    ensures response.category == Fine ==>
              t.upstream == Answered(response.message) && proxy.nextSeq == |newLog| + 1 == proxy.count + 1
    ensures response.category == Fine && Parses(response.message) ==>
              Tracks(newLog, Advance(p, response.message), prompt, proxy.ledger)
  {
    hide Counted, Parses, Plus, Fits, AllFit, StripSlashes, AllInStep, InStep, Tracks, Advance;
    ghost var ledger := proxy.ledger;
    var expected := proxy.nextSeq;
    response := proxy.Handle(request, t);
    var x := Exchange(request.number, expected, response);
    newLog := log + [x];
    NextInStep(log, x, p, prompt, ledger, limits);
    StaysInStep(log, x, prompt, limits);
    if response.category == Fine && Parses(response.message) { TracksOneMore(log, x, p, prompt, ledger); }
  }

  /** `execute` with a fresh session for the job's own capability.  Every request is in step; the run
      ends as `EndOf` says unless its output is not collected, and the four totals of an artifact are the proxy's
      ledger exactly when no answer wrote a count as text with a decimal point.  `turns` has one entry for each turn
      allowed. */
  method Execute(model: string, allowed: set<string>, proxy: Proxy, prompt: nat, turns: seq<Turn>, collected: bool)
    returns (result: Result, log: seq<Exchange>)
    requires proxy.cap == Issued(model, allowed, proxy.apiUrl)
    requires proxy.nextSeq == 1 && proxy.ledger == ZERO && proxy.count == 0
    modifies proxy
    ensures |log| <= |turns| && proxy.nextSeq <= |log| + 1
    ensures AllInStep(log, prompt, Limits(proxy.maxTokens, proxy.maxBody))
    ensures var e := EndOf(turns, 0, allowed, Limits(proxy.maxTokens, proxy.maxBody),
      Progress(true, prompt, false, ZERO));
            && |log| == e.requests
            && result == (if e.result.Artifact? && !collected then Failed(OutputError) else e.result)
    ensures result.Artifact? ==> proxy.nextSeq == |log| + 1 == proxy.count + 1
    ensures result.Artifact? ==> result.totals == Plus(proxy.ledger, ExcessIn(log))
    ensures result.Artifact? ==>
              (result.totals == proxy.ledger <==>
                 forall k | 0 <= k < |log| :: Excess(log[k].response.message.usage) == ZERO)
  {
    hide EndOf, AllRun, Calls, FirstStop, ToolDefinitions, Seen, Counted, Parses, Plus, Excess, ExcessIn, SizeIn,
      KnownThroughout, OnlyKnownFields, Fits, AllFit, ToolCalls, StripSlashes, AllInStep, InStep, Tracks;
    var limits := Limits(proxy.maxTokens, proxy.maxBody);
    ghost var p := Progress(true, prompt, false, ZERO);
    ghost var end := EndOf(turns, 0, allowed, limits, p);
    log := [];
    var number, size, totals, outputWritten, turn, done := 0, prompt, ZERO, false, 0, false;
    var echoed: seq<Fields> := [];
    StartsInStep(prompt, limits);
    EndpointMatches(proxy.apiUrl);
    while turn < |turns| && !done
      invariant 0 <= turn <= |turns| && |log| == number <= turn && (!done ==> turn == number)
      invariant proxy.nextSeq == number + 1 && proxy.count == number
      invariant log != [] ==> log[|log| - 1].response.category == Fine
      invariant AllInStep(log, prompt, limits) && Tracks(log, p, prompt, proxy.ledger)
      invariant p.size == size && p.wrote == outputWritten && p.totals == totals
        && (!done ==> AllFit(echoed) == p.known)
      invariant end.result == if done then Delivers(p) else EndOf(turns, turn, allowed, limits, p).result
      invariant end.requests == number + if done then 0 else EndOf(turns, turn, allowed, limits, p).requests
      decreases |turns| - turn, !done
    {
      var t := turns[turn];
      EndUnfold(turns, turn, allowed, limits, p);
      if t.cancelledBefore { return Failed(CancelledRun), log; }
      if t.expiredBefore { return Failed(Timeout), log; }
      number := number + 1;
      var request :=
        Request(number, model, 4096, ToolDefinitions(allowed, TOOL_NAMES), 1 + 2 * turn, echoed, size, true);
      if t.delivery.Lost? && !t.delivery.reached { return Failed(LossFailure(t.delivery.loss)), log; }
      var response: Response;
      response, log := Ask(proxy, request, t, log, p, prompt, limits);
      if t.delivery.Lost? { return Failed(LossFailure(t.delivery.loss)), log; }
      if response.category != Fine || !Parses(response.message) { return Failed(ModelError), log; }
      var m := response.message;
      p := Advance(p, m);
      totals, size := Plus(totals, Seen(m.usage)), size + m.size;
      turn := turn + 1;
      var tools := ToolCalls(m.blocks);
      if m.stop == ToolUse {
        if tools == [] { return Failed(ModelError), log; }
        FitTogether(echoed, EchoAll(m.blocks));
        EchoAllFitsExactlyWhen(m);
        echoed := echoed + EchoAll(m.blocks);
        var outcome := RunTools(tools, allowed);
        if outcome.Stop? { return Failed(outcome.failure), log; }
        outputWritten := outputWritten || outcome.wrote;
        done := outcome.finished;
      } else if m.stop == EndTurn || m.stop == StopSequence {
        if tools != [] { return Failed(ModelError), log; }
        ClosingWritesNothing(m);
        done := true;
      } else {
        return Failed(ModelError), log;
      }
    }
    EndUnfold(turns, turn, allowed, limits, p);
    if !outputWritten || !collected { return Failed(OutputError), log; }
    result := Artifact(totals);
    RunTotals(log, p, prompt, proxy.ledger);
  }

  lemma StartsInStep(prompt: nat, limits: Limits)
    ensures AllInStep([], prompt, limits) && Tracks([], Progress(true, prompt, false, ZERO), prompt, ZERO) && AllFit([])
  {
  }

  lemma RunTotals(log: seq<Exchange>, p: Progress, prompt: nat, ledger: Totals)
    requires Tracks(log, p, prompt, ledger)
    ensures p.totals == Plus(ledger, ExcessIn(log))
    ensures p.totals == ledger <==> forall k | 0 <= k < |log| :: Excess(log[k].response.message.usage) == ZERO
  {
    NoExcessExactlyWhen(log);
    PlusZero(ledger, ExcessIn(log));
  }

  lemma NextInStep(log: seq<Exchange>, x: Exchange, p: Progress, prompt: nat, ledger: Totals, limits: Limits)
    requires Tracks(log, p, prompt, ledger) && x.number == |log| + 1 == x.expected
    requires var c := x.response.category;
             && (c in OUT_OF_STEP ==> c == MaxTokensExceeded && limits.tokens < 4096)
             && (c == TooLarge <==> p.size > limits.body)
             && (c != TooLarge && c != Cancelled ==> (c == InvalidShape <==> !p.known))
    ensures InStep(log + [x], |log|, prompt, limits)
  {
    assert (log + [x])[..|log|] == log;
  }

  // ---------------------------------------------------------------- an answer with a thinking block

  const THINKING := Block(map["type" := Text("thinking"), "thinking" := Text("planning..."),
    "signature" := Text("sig")], false)
  const WORDS := Block(map["type" := Text("text"), "text" := Text("Okay, I will write the output.")], false)
  const WRITES :=
    Block(map["type" := Text("tool_use"), "id" := Text("toolu_write"), "name" := Text("write_output"),
      "input" := Object], false)

  function Answer(stop: StopReason, blocks: seq<Block>): Turn {
    Turn(false, false, false, false, Answered(Message(true, stop, blocks, NoUsage, 0)), Delivered)
  }

  lemma CallsOf(b: Block, rest: seq<Block>)
    ensures ToolCalls([b] + rest)
         == (if IsToolUse(b.fields) then [ToolCall(b.fields["name"].s, b.fails)] else []) + ToolCalls(rest)
  {
    assert ([b] + rest)[1..] == rest;
  }

  lemma OrdinaryBlocks()
    ensures TakesBlock(WORDS.fields) && !IsToolUse(WORDS.fields) && OnlyKnown(WORDS.fields)
    ensures TakesBlock(WRITES.fields) && IsToolUse(WRITES.fields) && OnlyKnown(WRITES.fields)
  {
    assert WORDS.fields.Keys == {"type", "text"} && WRITES.fields.Keys == {"type", "id", "name", "input"};
  }

  lemma WritingAnswer(first: Block)
    requires !IsToolUse(first.fields) && TakesBlock(first.fields)
    ensures var m := Answer(ToolUse, [first, WORDS, WRITES]).upstream.message;
            && Parses(m) && ToolCalls(m.blocks) == [ToolCall("write_output", false)]
            && (OnlyKnownFields(m) <==> OnlyKnown(first.fields))
  {
    OrdinaryBlocks();
    var blocks := [first, WORDS, WRITES];
    assert blocks == [first] + ([WORDS] + ([WRITES] + []));
    CallsOf(first, [WORDS] + ([WRITES] + []));
    CallsOf(WORDS, [WRITES] + []);
    CallsOf(WRITES, []);
    assert WRITES.fields["name"] == Text("write_output");
    hide TakesBlock, IsToolUse, OnlyKnown, ToolCalls;
    assert blocks[0] == first && first in blocks;
    assert forall b | b in blocks :: b == first || b == WORDS || b == WRITES;
  }

  lemma OneCall(name: string, sought: string, allowed: set<string>)
    ensures Calls([ToolCall(name, false)], sought) <==> name == sought
    ensures AllRun([ToolCall(name, false)], allowed) <==> name in allowed
  {
    var tools := [ToolCall(name, false)];
    assert tools[0].name == name && !tools[0].fails;
  }

  lemma NamesDiffer()
    ensures "write_output" != "finish"
  {
    assert |"write_output"| != |"finish"|;
  }

  lemma ClosingTurn(turns: seq<Turn>, k: nat, allowed: set<string>, limits: Limits, p: Progress)
    requires 4096 <= limits.tokens && k < |turns| && Undisturbed(turns[k]) && Closes(turns[k].upstream.message)
    requires p.wrote && p.size == 0 && p.totals == ZERO
    ensures EndOf(turns, k, allowed, limits, p)
         == Ending(if p.known then Artifact(ZERO) else Failed(ModelError), 1)
  {
    hide ToolCalls, OnlyKnownFields, Parses, Calls, AllRun, EndOf, Closes;
    EndUnfold(turns, k, allowed, limits, p);
  }

  lemma WritesAndCountsNothing(p: Progress, m: Message)
    requires Calls(ToolCalls(m.blocks), "write_output") && m.usage == NoUsage && m.size == 0 && p.totals == ZERO
    ensures Advance(p, m) == Progress(p.known && OnlyKnownFields(m), p.size, true, ZERO)
  {
    hide ToolCalls, OnlyKnownFields, Calls, Plus;
    PlusZero(ZERO, Seen(m.usage));
    var a := Advance(p, m);
    assert a.known == (p.known && OnlyKnownFields(m));
    assert a.size == p.size;
    assert a.wrote;
    assert a.totals == ZERO;
  }

  /** A first turn that writes the output and a second that closes the run. */
  lemma TwoTurns(turns: seq<Turn>, allowed: set<string>, limits: Limits, start: Progress)
    requires |turns| == 2 && Undisturbed(turns[0]) && Undisturbed(turns[1]) && Closes(turns[1].upstream.message)
    requires 4096 <= limits.tokens && start.known && start.size == 0 && start.totals == ZERO
    requires var m := turns[0].upstream.message;
             Works(m, allowed) && Calls(ToolCalls(m.blocks), "write_output") && !Calls(ToolCalls(m.blocks), "finish")
    ensures var end := EndOf(turns, 0, allowed, limits, start);
            && end.result == (if OnlyKnownFields(turns[0].upstream.message) then Artifact(ZERO) else Failed(ModelError))
            && end.requests == 2
  {
    hide ToolCalls, OnlyKnownFields, Parses, Calls, AllRun, EndOf, Advance, Closes;
    var m := turns[0].upstream.message;
    EndUnfold(turns, 0, allowed, limits, start);
    WorksIsNoClose(m, allowed);
    hide Works;
    WritesAndCountsNothing(start, m);
    ClosingTurn(turns, 1, allowed, limits, Advance(start, m));
  }

  lemma WorksIsNoClose(m: Message, allowed: set<string>)
    requires Works(m, allowed)
    ensures !Closes(m)
  {
  }

  /** Nothing in the environment stops the turn, and its answer parses, counts nothing and has no size. */
  predicate Undisturbed(t: Turn) {
    && !t.cancelledBefore && !t.expiredBefore && !t.sessionCancelled && !t.expired && t.delivery == Delivered
    && t.upstream.Answered? && Parses(t.upstream.message) && t.upstream.message.usage == NoUsage
      && t.upstream.message.size == 0
  }

  lemma ThinkingIsUnknown()
    ensures TakesBlock(THINKING.fields) && !IsToolUse(THINKING.fields) && !OnlyKnown(THINKING.fields)
  {
    assert THINKING.fields.Keys == {"type", "thinking", "signature"};
    assert !KnownField("signature", Text("sig")) && "signature" in THINKING.fields;
  }

  lemma ClosingAnswer()
    ensures var m := Answer(EndTurn, [WORDS]).upstream.message; Parses(m) && Closes(m)
  {
    OrdinaryBlocks();
    CallsOf(WORDS, []);
    assert [WORDS] + [] == [WORDS];
    hide TakesBlock, IsToolUse, OnlyKnown;
  }

  /** The output is written in the first turn and the second closes the run. */
  function WritingRun(first: Block): seq<Turn> {
    [Answer(ToolUse, [first, WORDS, WRITES]), Answer(EndTurn, [WORDS])]
  }

  lemma WritingRunDelivers(first: Block, limits: Limits)
    requires 4096 <= limits.tokens && TakesBlock(first.fields) && !IsToolUse(first.fields)
    ensures EndOf(WritingRun(first), 0, {"write_output"}, limits, Progress(true, 0, false, ZERO))
         == Ending(if OnlyKnown(first.fields) then Artifact(ZERO) else Failed(ModelError), 2)
  {
    WritingAnswer(first);
    ClosingAnswer();
    hide ToolCalls, OnlyKnownFields, OnlyKnown, TakesBlock, IsToolUse, Parses, Closes, EndOf, Calls, AllRun;
    var turns, allowed := [Answer(ToolUse, [first, WORDS, WRITES]), Answer(EndTurn, [WORDS])], {"write_output"};
    NamesDiffer();
    OneCall("write_output", "write_output", allowed);
    OneCall("write_output", "finish", allowed);
    assert Works(turns[0].upstream.message, allowed);
    TwoTurns(turns, allowed, limits, Progress(true, 0, false, ZERO));
  }

  /** A thinking block in the first answer is echoed, refused for its shape, and nothing is delivered; with a text
      block in its place all is. */
  lemma ThinkingBlockStopsRun(limits: Limits)
    requires 4096 <= limits.tokens
    ensures var start, allowed := Progress(true, 0, false, ZERO), {"write_output"};
            && EndOf(WritingRun(THINKING), 0, allowed, limits, start) == Ending(Failed(ModelError), 2)
            && EndOf(WritingRun(WORDS), 0, allowed, limits, start) == Ending(Artifact(ZERO), 2)
  {
    ThinkingIsUnknown();
    OrdinaryBlocks();
    hide OnlyKnown, TakesBlock, IsToolUse, EndOf, WritingRun;
    WritingRunDelivers(THINKING, limits);
    WritingRunDelivers(WORDS, limits);
  }
}
