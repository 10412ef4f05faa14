/** The hosted worker's nftables output policy: the line parser and first-match evaluation. */
module Firewall {
  import opened Options
  import opened Text

  datatype Action = Accept | Drop

  datatype Protocol = Tcp | Udp | OtherProtocol

  /** `ip_network(..., strict=False)`: `base` is the masked address. */
  datatype Network = Network(width: nat, base: nat, len: nat)

  datatype Address = Address(width: nat, value: nat)

  datatype Rule = Rule(
    action: Action, destination: Option<Network>, uid: Option<nat>, protocol: Option<Protocol>, port: Option<nat>)

  /** What Python supplies: white space, line ends, and the network a spelling reads as, if any. */
  datatype Platform = Platform(space: char -> bool, eol: char -> bool, read: string -> Option<Network>)

  ghost predicate Proper(os: Platform) { os.space(' ') && forall c: char | '!' <= c <= '~' :: !os.space(c) }

  // ---------------------------------------------------------------- one rule line

  function ReadRun(s: string, stop: char -> bool, space: char -> bool): (r: Option<(string, string)>)
    ensures r.Some? ==> r.value.0 != [] && forall c | c in r.value.0 :: !stop(c)
  {
    var n := Run(s, stop);
    if n > 0 && n < |s| && space(s[n]) then
      assert forall i | 0 <= i < n :: !stop(s[..n][i]);
      Some((s[..n], LeftStrip(s[n..], space)))
    else None
  }

  /** An optional group: a keyword, a run of characters and at least one space, or nothing. */
  function Group(s: string, keyword: string, stop: char -> bool, space: char -> bool): (r: Option<(string, string)>)
    ensures r.Some? ==> r.value.0 != [] && forall c | c in r.value.0 :: !stop(c)
  {
    if keyword <= s then ReadRun(s[|keyword|..], stop, space) else None
  }

  function NotDigit(): char -> bool { c => !Digit(c) }

  function UidWord(): string { "meta skuid " }

  function Ip4Word(): string { "ip daddr " }

  function Ip6Word(): string { "ip6 daddr " }

  function TcpWord(): string { "tcp dport " }

  function UdpWord(): string { "udp dport " }

  function AcceptWord(): string { "accept" }

  function DropWord(): string { "drop" }

  /** One of two groups, the first if both match: which, what it holds, and the text after it. */
  function Either(s: string, first: string, second: string, stop: char -> bool, space: char -> bool)
    : (r: (Option<(bool, string)>, string))
    ensures r.0.Some? ==> forall c | c in r.0.value.1 :: !stop(c)
  {
    var g, h := Group(s, first, stop, space), Group(s, second, stop, space);
    if g.Some? then (Some((true, g.value.0)), g.value.1)
    else if h.Some? then (Some((false, h.value.0)), h.value.1)
    else (None, s)
  }

  /** The user id, if given, and the text after it. */
  function ReadUid(s: string, space: char -> bool): (Option<nat>, string) {
    var uid := Group(s, UidWord(), NotDigit(), space);
    if uid.Some? then (Some(Number(uid.value.0)), uid.value.1) else (None, s)
  }

  function ReadDestination(s: string, space: char -> bool): (Option<string>, string) {
    var e := Either(s, Ip4Word(), Ip6Word(), space, space);
    (if e.0.Some? then Some(e.0.value.1) else None, e.1)
  }

  function ReadPort(s: string, space: char -> bool): (Option<(Protocol, nat)>, string) {
    var e := Either(s, TcpWord(), UdpWord(), NotDigit(), space);
    if e.0.None? then (None, e.1) else (Some((if e.0.value.0 then Tcp else Udp, Number(e.0.value.1))), e.1)
  }

  function ReadAction(s: string, space: char -> bool): Option<Action> {
    var yes, no := AcceptWord(), DropWord();
    if yes <= s && LeftStrip(s[|yes|..], space) == [] then Some(Accept)
    else if no <= s && LeftStrip(s[|no|..], space) == [] then Some(Drop)
    else None
  }

  /** `None` for a line that is not a rule, or whose destination is not a network. */
  function ParseRule(line: string, os: Platform): Option<Rule> {
    var uid := ReadUid(LeftStrip(line, os.space), os.space);
    var destination := ReadDestination(uid.1, os.space);
    var port := ReadPort(destination.1, os.space);
    var action := ReadAction(port.1, os.space);
    var network := if destination.0.Some? then os.read(destination.0.value) else None;
    if action.None? || (destination.0.Some? && network.None?) then None
    else
      Some(Rule(action.value, network, uid.0,
                if port.0.Some? then Some(port.0.value.0) else None,
                if port.0.Some? then Some(port.0.value.1) else None))
  }

  // ---------------------------------------------------------------- the line fold

  /** The name in a line of the form "chain NAME {". */
  function ChainName(line: string, os: Platform): Option<string> {
    var s := LeftStrip(line, os.space);
    if "chain " <= s then
      var n := Run(s[6..], os.space);
      if n > 0 && s[6 + n..] == " {" then Some(s[6..6 + n]) else None
    else None
  }

  /** The first "policy accept;" or "policy drop;" in the line. */
  function FindPolicy(s: string): Option<Action> {
    if "policy accept;" <= s then Some(Accept)
    else if "policy drop;" <= s then Some(Drop)
    else if s == [] then None
    else FindPolicy(s[1..])
  }

  predicate KnownBase(stripped: string, os: Platform) {
    || stripped == "iifname \"lo\" accept" || stripped == "oifname \"lo\" accept"
    || stripped == "ct state established,related accept" || Management(stripped, os)
  }

  /** "ip saddr ADDRESS tcp dport PORT accept". */
  predicate Management(stripped: string, os: Platform) {
    && ("ip saddr " <= stripped
        && var n := Run(stripped[9..], os.space);
        n > 0 && " tcp dport " <= stripped[9 + n..]
        && var d := Run(stripped[9 + n + 11..], NotDigit());
        d > 0 && stripped[9 + n + 11 + d..] == " accept")
  }

  datatype Chain = Input | Output

  datatype State = State(
    chain: Option<Chain>, rules: seq<Rule>, inputPolicy: Option<Action>, outputPolicy: Option<Action>, valid: bool)

  const START := State(None, [], None, None, true)

  /** What a line inside a chain does. */
  function InChain(st: State, line: string, os: Platform): State
    requires st.chain.Some?
  {
    var stripped := Strip(line, os.space);
    if stripped == "}" then st.(chain := None)
    else if "type " <= stripped then
      var policy := FindPolicy(stripped);
      if policy.None? then st
      else if st.chain == Some(Input) then st.(inputPolicy := policy)
      else st.(outputPolicy := policy)
    else if stripped == "" || "comment " <= stripped || KnownBase(stripped, os) then st
    else if st.chain != Some(Output) then st.(valid := false)
    else match ParseRule(line, os)
         case None => st.(valid := false)
         case Some(r) => st.(rules := st.rules + [r])
  }

  function Step(st: State, line: string, os: Platform): State {
    match ChainName(line, os)
    case Some(name) =>
      if name == "input" then st.(chain := Some(Input))
      else if name == "output" then st.(chain := Some(Output))
      else st.(valid := false, chain := None)
    case None => if st.chain.None? then st else InChain(st, line, os)
  }

  function Fold(st: State, lines: seq<string>, os: Platform): State {
    if lines == [] then st else Step(Fold(st, lines[..|lines| - 1], os), lines[|lines| - 1], os)
  }

  datatype Policy = Policy(rules: seq<Rule>, inputPolicy: Option<Action>, outputPolicy: Option<Action>, valid: bool)

  function Parsed(lines: seq<string>, os: Platform): Policy {
    var st := Fold(START, lines, os);
    Policy(st.rules, st.inputPolicy, st.outputPolicy,
           st.valid && st.inputPolicy == Some(Drop) && st.outputPolicy == Some(Drop))
  }

  method ParseOutputPolicy(text: string, os: Platform) returns (p: Policy)
    ensures p == Parsed(Lines(text, os.eol), os)
  {
    hide ParseRule, KnownBase, FindPolicy, ChainName, Strip;
    var lines := Lines(text, os.eol);
    var rules: seq<Rule>, chain: Option<Chain>, valid := [], None, true;
    var inputPolicy: Option<Action>, outputPolicy: Option<Action> := None, None;
    for i := 0 to |lines|
      invariant Fold(START, lines[..i], os) == State(chain, rules, inputPolicy, outputPolicy, valid)
    {
      var line := lines[i];
      assert lines[..i + 1][..i] == lines[..i];
      var stripped := Strip(line, os.space);
      var name := ChainName(line, os);
      if name == Some("input") || name == Some("output") {
        chain := if name == Some("input") then Some(Input) else Some(Output);
        continue;
      }
      if name.Some? {
        valid, chain := false, None;
        continue;
      }
      if chain.Some? && stripped == "}" {
        chain := None;
        continue;
      }
      if chain.None? { continue; }
      if "type " <= stripped {
        var policy := FindPolicy(stripped);
        if policy.Some? {
          if chain == Some(Input) { inputPolicy := policy; } else { outputPolicy := policy; }
        }
        continue;
      }
      if stripped == "" || "comment " <= stripped { continue; }
      if KnownBase(stripped, os) { continue; }
      if chain != Some(Output) {
        valid := false;
        continue;
      }
      var rule := ParseRule(line, os);
      if rule.None? {
        valid := false;
        continue;
      }
      rules := rules + [rule.value];
    }
    assert lines[..|lines|] == lines;
    if inputPolicy != Some(Drop) || outputPolicy != Some(Drop) { valid := false; }
    p := Policy(rules, inputPolicy, outputPolicy, valid);
  }

  lemma {:induction false} FoldConcat(st: State, a: seq<string>, b: seq<string>, os: Platform)
    ensures Fold(st, a + b, os) == Fold(Fold(st, a, os), b, os)
  {
    hide Step;
    if b == [] {
      assert a + b == a;
    } else {
      assert (a + b)[..|a + b| - 1] == a + b[..|b| - 1];
      FoldConcat(st, a, b[..|b| - 1], os);
    }
  }

  lemma {:induction false} FoldGrows(st: State, lines: seq<string>, os: Platform)
    ensures var end := Fold(st, lines, os); st.rules <= end.rules && (!st.valid ==> !end.valid)
  {
    hide ParseRule, KnownBase, FindPolicy, ChainName, Strip;
    if lines != [] { FoldGrows(st, lines[..|lines| - 1], os); }
  }

  /** Once invalid, a table stays invalid whatever follows, and later lines never take back a rule. */
  lemma InvalidityIsSticky(before: seq<string>, after: seq<string>, os: Platform)
    ensures !Fold(START, before, os).valid ==> !Parsed(before + after, os).valid
    ensures Parsed(before, os).rules <= Parsed(before + after, os).rules
  {
    FoldConcat(START, before, after, os);
    FoldGrows(Fold(START, before, os), after, os);
  }

  /** The line is one the parser understands where it stands. */
  predicate Understood(st: State, line: string, os: Platform) {
    match ChainName(line, os)
    case Some(name) => name == "input" || name == "output"
    case None =>
      var stripped := Strip(line, os.space);
      || st.chain.None? || stripped == "}" || stripped == "" || "type " <= stripped || "comment " <= stripped
      || KnownBase(stripped, os) || (st.chain == Some(Output) && ParseRule(line, os).Some?)
  }

  lemma StepKeepsValid(st: State, line: string, os: Platform)
    ensures Step(st, line, os).valid <==> st.valid && Understood(st, line, os)
  {
    hide ParseRule, KnownBase, FindPolicy, ChainName, Strip;
  }

  lemma {:induction false} FoldValidExactlyWhen(lines: seq<string>, os: Platform)
    ensures Fold(START, lines, os).valid <==> forall i | 0 <= i < |lines| ::
      Understood(Fold(START, lines[..i], os), lines[i], os)
  {
    hide Understood, Step;
    if lines != [] {
      var init, last := lines[..|lines| - 1], lines[|lines| - 1];
      FoldValidExactlyWhen(init, os);
      StepKeepsValid(Fold(START, init, os), last, os);
      forall i | 0 <= i < |init| ensures init[..i] == lines[..i] && init[i] == lines[i] { }
    }
  }

  /** Unknown rules and chain policies are rejected: a table is valid exactly when the parser understands every
      line where it stands and both chains end up with policy drop. */
  lemma ValidExactlyWhenUnderstood(lines: seq<string>, os: Platform)
    ensures var p := Parsed(lines, os);
      p.valid <==> (forall i | 0 <= i < |lines| :: Understood(Fold(START, lines[..i], os), lines[i], os))
                   && p.inputPolicy == Some(Drop) && p.outputPolicy == Some(Drop)
  {
    hide Understood, Step;
    FoldValidExactlyWhen(lines, os);
  }
}
