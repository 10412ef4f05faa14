/** Rendering a rule list into drop-policy chains and parsing it gives the rules back, in order. */
module FirewallRoundTrip {
  import opened Firewall
  import opened Options
  import opened Text

  /** Spacing and spelling the grammar leaves open for one rule. */
  datatype Spelling = Spelling(indent: string, gap: string, tail: string, six: bool, destination: string)

  /** Rules of the accepted grammar: a protocol and a port come together. */
  predicate InGrammar(r: Rule) { (r.protocol.Some? <==> r.port.Some?) && r.protocol != Some(OtherProtocol) }

  predicate Spells(sp: Spelling, r: Rule, os: Platform) {
    && Blank(sp.indent, os.space) && Blank(sp.gap, os.space) && Blank(sp.tail, os.space) && sp.gap != []
    && (r.destination.Some? ==>
          && os.read(sp.destination) == r.destination && sp.destination != []
          && forall c | c in sp.destination :: !os.space(c))
  }

  function ActionText(r: Rule): string { if r.action == Accept then AcceptWord() else DropWord() }

  function PortText(r: Rule, sp: Spelling): string {
    if r.protocol.None? || r.port.None? then ActionText(r)
    else (if r.protocol == Some(Tcp) then TcpWord() else UdpWord()) + Decimal(r.port.value) + sp.gap + ActionText(r)
  }

  function DestinationText(r: Rule, sp: Spelling): string {
    if r.destination.None? then PortText(r, sp)
    else (if sp.six then Ip6Word() else Ip4Word()) + sp.destination + sp.gap + PortText(r, sp)
  }

  function RuleBody(r: Rule, sp: Spelling): string {
    if r.uid.None? then DestinationText(r, sp)
    else UidWord() + Decimal(r.uid.value) + sp.gap + DestinationText(r, sp)
  }

  function RuleText(r: Rule, sp: Spelling): string { sp.indent + RuleBody(r, sp) + sp.tail }

  // ---------------------------------------------------------------- one group

  lemma GroupReads(keyword: string, w: string, gap: string, rest: string, stop: char -> bool, space: char -> bool)
    requires w != [] && (forall c | c in w :: !stop(c)) && Blank(gap, space) && gap != [] && stop(gap[0])
    requires rest != [] && !space(rest[0])
    ensures Group(keyword + w + gap + rest, keyword, stop, space) == Some((w, rest))
  {
    var s, after := keyword + w + gap + rest, w + (gap + rest);
    assert s == keyword + after;
    assert keyword <= s && s[|keyword|..] == after;
    RunOver(w, gap + rest, stop);
    assert after[..|w|] == w && after[|w|..] == gap + rest && after[|w|] == gap[0] && gap[0] in gap;
    LeftStripBlank(gap, rest, space);
    assert ReadRun(after, stop, space) == Some((w, rest));
  }

  lemma NoGroup(s: string, keyword: string, i: nat, stop: char -> bool, space: char -> bool)
    requires i < |s| && i < |keyword| && s[i] != keyword[i]
    ensures Group(s, keyword, stop, space).None?
  {
  }

  lemma EitherReads(first: string, second: string, i: nat, pick: bool, w: string, gap: string, rest: string,
                    stop: char -> bool, space: char -> bool)
    requires i < |first| && i < |second| && first[i] != second[i]
    requires w != [] && (forall c | c in w :: !stop(c)) && Blank(gap, space) && gap != [] && stop(gap[0])
    requires rest != [] && !space(rest[0])
    ensures Either((if pick then first else second) + w + gap + rest, first, second, stop, space)
         == (Some((pick, w)), rest)
  {
    var keyword := if pick then first else second;
    GroupReads(keyword, w, gap, rest, stop, space);
    if !pick {
      var s := keyword + w + gap + rest;
      assert s[i] == second[i];
      NoGroup(s, first, i, stop, space);
    }
  }

  lemma NeitherReads(s: string, first: string, second: string, stop: char -> bool, space: char -> bool)
    requires s != [] && first != [] && second != [] && s[0] != first[0] && s[0] != second[0]
    ensures Either(s, first, second, stop, space) == (None, s)
  {
    NoGroup(s, first, 0, stop, space);
    NoGroup(s, second, 0, stop, space);
  }

  // ---------------------------------------------------------------- how texts begin

  /** How a rule can begin; no other accepted line begins so. */
  predicate StartsRule(s: string) {
    || (s != [] && s[0] in {'m', 'u', 'a', 'd'})
    || (|s| >= 4 && s[0] == 't' && s[1] == 'c')
    || (|s| >= 4 && s[0] == 'i' && s[1] == 'p' && (s[2] == '6' || (s[2] == ' ' && s[3] == 'd')))
  }

  lemma WordsBegin()
    ensures |UidWord()| >= 4 && UidWord()[0] == 'm'
    ensures |Ip4Word()| >= 4 && Ip4Word()[0] == 'i' && Ip4Word()[1] == 'p' && Ip4Word()[2] == ' ' && Ip4Word()[3] == 'd'
    ensures |Ip6Word()| >= 4 && Ip6Word()[0] == 'i' && Ip6Word()[1] == 'p' && Ip6Word()[2] == '6'
    ensures |TcpWord()| >= 4 && TcpWord()[0] == 't' && TcpWord()[1] == 'c'
    ensures |UdpWord()| >= 4 && UdpWord()[0] == 'u'
    ensures |AcceptWord()| == 6 && AcceptWord()[0] == 'a' && AcceptWord()[5] == 't'
    ensures |DropWord()| == 4 && DropWord()[0] == 'd' && DropWord()[3] == 'p'
  {
  }

  lemma LongerStartsRule(keyword: string, more: string)
    requires StartsRule(keyword)
    ensures StartsRule(keyword + more) && (keyword + more)[0] == keyword[0]
  {
  }

  lemma TextStarts(r: Rule, sp: Spelling)
    requires InGrammar(r)
    ensures StartsRule(ActionText(r)) && ActionText(r)[0] in {'a', 'd'}
    ensures StartsRule(PortText(r, sp)) && PortText(r, sp)[0] in {'a', 'd', 't', 'u'}
    ensures StartsRule(DestinationText(r, sp)) && DestinationText(r, sp)[0] in {'a', 'd', 't', 'u', 'i'}
    ensures StartsRule(RuleBody(r, sp))
  {
    WordsBegin();
    hide UidWord, Ip4Word, Ip6Word, TcpWord, UdpWord, AcceptWord, DropWord, Decimal;
    if r.port.Some? {
      var keyword := if r.protocol == Some(Tcp) then TcpWord() else UdpWord();
      LongerStartsRule(keyword, Decimal(r.port.value) + sp.gap + ActionText(r));
      Regroup(keyword, Decimal(r.port.value), sp.gap, ActionText(r));
    }
    if r.destination.Some? {
      var keyword := if sp.six then Ip6Word() else Ip4Word();
      LongerStartsRule(keyword, sp.destination + sp.gap + PortText(r, sp));
      Regroup(keyword, sp.destination, sp.gap, PortText(r, sp));
    }
    if r.uid.Some? {
      LongerStartsRule(UidWord(), Decimal(r.uid.value) + sp.gap + DestinationText(r, sp));
      Regroup(UidWord(), Decimal(r.uid.value), sp.gap, DestinationText(r, sp));
    }
  }

  lemma Regroup(k: string, w: string, g: string, rest: string)
    ensures k + w + g + rest == k + (w + g + rest)
  {
  }

  /** A text with something after it. */
  lemma Carry(k: string, w: string, g: string, rest: string, tail: string)
    ensures k + w + g + rest + tail == k + w + g + (rest + tail)
  {
  }

  function Last(s: string): char
    requires s != []
  {
    s[|s| - 1]
  }

  lemma LastOf(a: string, b: string)
    requires b != []
    ensures a + b != [] && Last(a + b) == Last(b)
  {
  }

  lemma PortEnds(r: Rule, sp: Spelling)
    requires ActionText(r) != []
    ensures PortText(r, sp) != [] && Last(PortText(r, sp)) == Last(ActionText(r))
  {
    hide TcpWord, UdpWord, Decimal, ActionText, Last;
    if r.protocol.Some? && r.port.Some? {
      LastOf((if r.protocol == Some(Tcp) then TcpWord() else UdpWord()) + Decimal(r.port.value) + sp.gap,
        ActionText(r));
    }
  }

  lemma DestinationEnds(r: Rule, sp: Spelling)
    requires PortText(r, sp) != []
    ensures DestinationText(r, sp) != [] && Last(DestinationText(r, sp)) == Last(PortText(r, sp))
  {
    hide Ip4Word, Ip6Word, PortText, Last;
    if r.destination.Some? {
      LastOf((if sp.six then Ip6Word() else Ip4Word()) + sp.destination + sp.gap, PortText(r, sp));
    }
  }

  lemma BodyEnds(r: Rule, sp: Spelling)
    requires DestinationText(r, sp) != []
    ensures RuleBody(r, sp) != [] && Last(RuleBody(r, sp)) == Last(DestinationText(r, sp))
  {
    hide UidWord, DestinationText, Last, Decimal;
    if r.uid.Some? { LastOf(UidWord() + Decimal(r.uid.value) + sp.gap, DestinationText(r, sp)); }
  }

  lemma BodyIsSolid(r: Rule, sp: Spelling, os: Platform)
    requires InGrammar(r) && Proper(os)
    ensures Solid(RuleBody(r, sp), os.space)
  {
    TextStarts(r, sp);
    WordsBegin();
    assert ActionText(r) != [] && Last(ActionText(r)) in {'t', 'p'};
    hide ActionText, PortText, DestinationText, RuleBody, AcceptWord, DropWord;
    PortEnds(r, sp);
    DestinationEnds(r, sp);
    BodyEnds(r, sp);
    assert RuleBody(r, sp)[0] in {'m', 'u', 'a', 'd', 't', 'i'};
  }

  // ---------------------------------------------------------------- one rule

  lemma ActionReads(r: Rule, sp: Spelling, os: Platform)
    requires Spells(sp, r, os)
    ensures ReadAction(ActionText(r) + sp.tail, os.space) == Some(r.action)
  {
    WordsBegin();
    hide AcceptWord, DropWord;
    LeftStripBlank(sp.tail, [], os.space);
    assert sp.tail + [] == sp.tail;
    var s, a := ActionText(r) + sp.tail, ActionText(r);
    assert s[|a|..] == sp.tail && a <= s && s[0] == a[0];
  }

  lemma PortReads(r: Rule, sp: Spelling, os: Platform)
    requires InGrammar(r) && Spells(sp, r, os) && Proper(os)
    ensures ReadPort(PortText(r, sp) + sp.tail, os.space)
         == (if r.port.Some? then Some((r.protocol.value, r.port.value)) else None, ActionText(r) + sp.tail)
  {
    TextStarts(r, sp);
    WordsBegin();
    hide TcpWord, UdpWord, Decimal, Number, Group, Either, ActionText, StartsRule;
    var s, a := PortText(r, sp) + sp.tail, ActionText(r) + sp.tail;
    assert a[0] == ActionText(r)[0];
    if r.port.Some? {
      assert sp.gap[0] in sp.gap;
      DecimalReadsBack(r.port.value);
      var digits, first := Decimal(r.port.value), r.protocol == Some(Tcp);
      Carry(if first then TcpWord() else UdpWord(), digits, sp.gap, ActionText(r), sp.tail);
      EitherReads(TcpWord(), UdpWord(), 0, first, digits, sp.gap, a, NotDigit(), os.space);
      assert r.protocol.value == if first then Tcp else Udp;
    } else {
      NeitherReads(s, TcpWord(), UdpWord(), NotDigit(), os.space);
    }
  }

  lemma DestinationReads(r: Rule, sp: Spelling, os: Platform)
    requires InGrammar(r) && Spells(sp, r, os) && Proper(os)
    ensures ReadDestination(DestinationText(r, sp) + sp.tail, os.space)
         == (if r.destination.Some? then Some(sp.destination) else None, PortText(r, sp) + sp.tail)
  {
    TextStarts(r, sp);
    WordsBegin();
    hide Ip4Word, Ip6Word, Group, Either, PortText, StartsRule;
    var s, p := DestinationText(r, sp) + sp.tail, PortText(r, sp) + sp.tail;
    assert p[0] == PortText(r, sp)[0];
    if r.destination.Some? {
      assert sp.gap[0] in sp.gap;
      Carry(if sp.six then Ip6Word() else Ip4Word(), sp.destination, sp.gap, PortText(r, sp), sp.tail);
      EitherReads(Ip4Word(), Ip6Word(), 2, !sp.six, sp.destination, sp.gap, p, os.space, os.space);
    } else {
      NeitherReads(s, Ip4Word(), Ip6Word(), os.space, os.space);
    }
  }

  lemma UidReads(r: Rule, sp: Spelling, os: Platform)
    requires InGrammar(r) && Spells(sp, r, os) && Proper(os)
    ensures ReadUid(RuleBody(r, sp) + sp.tail, os.space) == (r.uid, DestinationText(r, sp) + sp.tail)
  {
    TextStarts(r, sp);
    WordsBegin();
    hide UidWord, Decimal, Number, Group, DestinationText, StartsRule;
    var s, d := RuleBody(r, sp) + sp.tail, DestinationText(r, sp) + sp.tail;
    assert d[0] == DestinationText(r, sp)[0];
    if r.uid.Some? {
      assert sp.gap[0] in sp.gap;
      DecimalReadsBack(r.uid.value);
      Carry(UidWord(), Decimal(r.uid.value), sp.gap, DestinationText(r, sp), sp.tail);
      GroupReads(UidWord(), Decimal(r.uid.value), sp.gap, d, NotDigit(), os.space);
    } else {
      NoGroup(s, UidWord(), 0, NotDigit(), os.space);
    }
  }

  /** Every rule of the grammar, however spaced, reads back as itself. */
  lemma RuleReadsBack(r: Rule, sp: Spelling, os: Platform)
    requires InGrammar(r) && Spells(sp, r, os) && Proper(os)
    ensures ParseRule(RuleText(r, sp), os) == Some(r)
  {
    hide ReadUid, ReadDestination, ReadPort, ReadAction, LeftStrip, Strip, RuleBody, DestinationText, PortText,
      ActionText, Proper, Blank;
    BodyIsSolid(r, sp, os);
    StripAround(sp.indent, RuleBody(r, sp), sp.tail, os.space);
    UidReads(r, sp, os);
    DestinationReads(r, sp, os);
    PortReads(r, sp, os);
    ActionReads(r, sp, os);
  }

  // ---------------------------------------------------------------- a rule line is nothing else

  /** Two texts that differ at one place. */
  lemma DiffersAt(s: string, t: string, i: nat)
    requires i < |s| && i < |t| && s[i] != t[i]
    ensures s != t && !(t <= s)
  {
  }

  lemma NotDirective(s: string)
    requires StartsRule(s)
    ensures s != "}" && s != "" && !("type " <= s) && !("comment " <= s) && !("chain " <= s)
  {
    if s[0] == 't' { DiffersAt(s, "type ", 1); } else { DiffersAt(s, "type ", 0); }
  }

  lemma NotInterface(s: string)
    requires StartsRule(s)
    ensures s != "iifname \"lo\" accept" && s != "oifname \"lo\" accept"
  {
    DiffersAt(s, "oifname \"lo\" accept", 0);
    if s[0] == 'i' { DiffersAt(s, "iifname \"lo\" accept", 1); } else { DiffersAt(s, "iifname \"lo\" accept", 0); }
  }

  lemma NotEstablished(s: string)
    requires StartsRule(s)
    ensures s != "ct state established,related accept"
  {
    DiffersAt(s, "ct state established,related accept", 0);
  }

  lemma NotManagement(s: string, os: Platform)
    requires StartsRule(s)
    ensures !Management(s, os)
  {
    if s[0] != 'i' { DiffersAt(s, "ip saddr ", 0); }
    else if s[2] == '6' { DiffersAt(s, "ip saddr ", 2); }
    else { DiffersAt(s, "ip saddr ", 3); }
  }

  lemma StartsNothingElse(s: string, os: Platform)
    requires StartsRule(s)
    ensures s != "}" && s != "" && !("type " <= s) && !("comment " <= s) && !("chain " <= s) && !KnownBase(s, os)
  {
    NotDirective(s);
    NotInterface(s);
    NotEstablished(s);
    NotManagement(s, os);
    hide Management, StartsRule;
  }

  lemma RuleInOutputChain(st: State, line: string, r: Rule, os: Platform)
    requires st.chain == Some(Output) && ChainName(line, os) == None && ParseRule(line, os) == Some(r)
    requires var s := Strip(line, os.space);
             s != "}" && s != "" && !("type " <= s) && !("comment " <= s) && !KnownBase(s, os)
    ensures Step(st, line, os) == st.(rules := st.rules + [r])
  {
    hide ParseRule, KnownBase, Strip, FindPolicy, ChainName;
  }

  /** A rule line in the output chain appends its rule. */
  lemma RuleLineSteps(st: State, r: Rule, sp: Spelling, os: Platform)
    requires st.chain == Some(Output) && InGrammar(r) && Spells(sp, r, os) && Proper(os)
    ensures Step(st, RuleText(r, sp), os) == st.(rules := st.rules + [r])
  {
    hide ParseRule, KnownBase, Strip, LeftStrip, FindPolicy, Step, StartsRule, InGrammar, RuleBody;
    BodyIsSolid(r, sp, os);
    StripAround(sp.indent, RuleBody(r, sp), sp.tail, os.space);
    TextStarts(r, sp);
    StartsNothingElse(RuleBody(r, sp), os);
    LongerStartsRule(RuleBody(r, sp), sp.tail);
    StartsNothingElse(RuleBody(r, sp) + sp.tail, os);
    RuleReadsBack(r, sp, os);
    RuleInOutputChain(st, RuleText(r, sp), r, os);
  }

  // ---------------------------------------------------------------- the table

  function RuleLines(rules: seq<Rule>, spellings: seq<Spelling>): seq<string>
    requires |rules| == |spellings|
  {
    seq(|rules|, i requires 0 <= i < |rules| => RuleText(rules[i], spellings[i]))
  }

  lemma {:induction false} RuleLinesFold(st: State, rules: seq<Rule>, spellings: seq<Spelling>, os: Platform)
    requires |rules| == |spellings| && Proper(os) && st.chain == Some(Output)
    requires forall i | 0 <= i < |rules| :: InGrammar(rules[i]) && Spells(spellings[i], rules[i], os)
    ensures Fold(st, RuleLines(rules, spellings), os) == st.(rules := st.rules + rules)
  {
    hide Step, RuleText, InGrammar, Spells;
    if rules == [] {
      assert st.rules + rules == st.rules;
    } else {
      var k := |rules| - 1;
      var lines := RuleLines(rules, spellings);
      RuleLinesFold(st, rules[..k], spellings[..k], os);
      assert lines[..k] == RuleLines(rules[..k], spellings[..k]);
      assert lines[k] == RuleText(rules[k], spellings[k]);
      var mid := st.(rules := st.rules + rules[..k]);
      RuleLineSteps(mid, rules[k], spellings[k], os);
      assert st.rules + rules[..k] + [rules[k]] == st.rules + rules;
    }
  }

  lemma HeadReads(indent: string, name: string, os: Platform)
    requires Proper(os) && Blank(indent, os.space) && name != [] && forall c | c in name :: !os.space(c)
    ensures ChainName(indent + "chain " + name + " {", os) == Some(name)
  {
    var s := "chain " + name + " {";
    assert indent + "chain " + name + " {" == indent + s;
    LeftStripBlank(indent, s, os.space);
    assert s[6..] == name + " {";
    RunOver(name, " {", os.space);
    assert s[6 + |name|..] == " {" && s[6..6 + |name|] == name;
  }

  /** A line that sets the current chain's policy to drop. */
  predicate DropPolicy(line: string, os: Platform) {
    ChainName(line, os).None? && "type " <= Strip(line, os.space) && FindPolicy(Strip(line, os.space)) == Some(Drop)
  }

  predicate Closes(line: string, os: Platform) { ChainName(line, os).None? && Strip(line, os.space) == "}" }

  lemma {:induction false} OutsideFold(st: State, lines: seq<string>, os: Platform)
    requires st.chain.None? && forall l | l in lines :: ChainName(l, os).None?
    ensures Fold(st, lines, os) == st
  {
    hide ChainName;
    if lines != [] { OutsideFold(st, lines[..|lines| - 1], os); }
  }

  lemma FoldTwo(st: State, a: string, b: string, os: Platform)
    ensures Fold(st, [a], os) == Step(st, a, os)
    ensures Fold(st, [a, b], os) == Step(Step(st, a, os), b, os)
  {
    hide Step;
    assert [a, b][..1] == [a] && [a][..0] == [];
  }

  lemma PolicyNotClose(line: string, os: Platform)
    requires DropPolicy(line, os)
    ensures Strip(line, os.space) != "}"
  {
  }

  lemma HeadAndPolicy(st: State, indent: string, output: bool, policy: string, os: Platform)
    requires Proper(os) && Blank(indent, os.space) && DropPolicy(policy, os)
    ensures Fold(st, [indent + "chain " + (if output then "output" else "input") + " {", policy], os)
         == if output then st.(chain := Some(Output), outputPolicy := Some(Drop))
            else st.(chain := Some(Input), inputPolicy := Some(Drop))
  {
    var name := if output then "output" else "input";
    var head := indent + "chain " + name + " {";
    HeadReads(indent, name, os);
    FoldTwo(st, head, policy, os);
    PolicyNotClose(policy, os);
    hide ChainName, Strip, FindPolicy;
    assert "input" != "output" by { assert "input"[0] != "output"[0]; }
  }

  lemma CloseStep(st: State, line: string, os: Platform)
    requires Closes(line, os)
    ensures Fold(st, [line], os) == st.(chain := None)
  {
    FoldTwo(st, line, line, os);
    hide ChainName, Strip, FindPolicy;
  }

  /** The open parts of a drop-policy table: what stands around its two chains, and how they are spaced. */
  datatype Table = Table(before: seq<string>, inputIndent: string, inputPolicy: string, inputClose: string,
                         outputIndent: string, outputPolicy: string, outputClose: string, after: seq<string>)

  predicate IsTable(t: Table, os: Platform) {
    && (forall l | l in t.before :: ChainName(l, os).None?) && (forall l | l in t.after :: ChainName(l, os).None?)
    && Blank(t.inputIndent, os.space) && Blank(t.outputIndent, os.space)
    && DropPolicy(t.inputPolicy, os) && DropPolicy(t.outputPolicy, os) && Closes(t.inputClose, os)
      && Closes(t.outputClose, os)
  }

  function TableLines(t: Table, rules: seq<Rule>, spellings: seq<Spelling>): seq<string>
    requires |rules| == |spellings|
  {
    t.before
    + ([t.inputIndent + "chain " + "input" + " {", t.inputPolicy]
       + ([t.inputClose]
          + ([t.outputIndent + "chain " + "output" + " {", t.outputPolicy]
             + (RuleLines(rules, spellings) + ([t.outputClose] + t.after)))))
  }

  /** A rule list of the grammar, rendered inside drop-policy chains with any spacing, parses back to exactly
      those rules in that order, and the table is valid. */
  lemma TableReadsBack(t: Table, rules: seq<Rule>, spellings: seq<Spelling>, os: Platform)
    requires IsTable(t, os) && Proper(os) && |rules| == |spellings|
    requires forall i | 0 <= i < |rules| :: InGrammar(rules[i]) && Spells(spellings[i], rules[i], os)
    ensures Parsed(TableLines(t, rules, spellings), os) == Policy(rules, Some(Drop), Some(Drop), true)
  {
    hide Step, InGrammar, Spells, DropPolicy, Closes, Blank, ChainName, RuleLines, Fold, Proper;
    var close := [t.outputClose] + t.after;
    var body := RuleLines(rules, spellings) + close;
    var output := [t.outputIndent + "chain " + "output" + " {", t.outputPolicy];
    var input := [t.inputIndent + "chain " + "input" + " {", t.inputPolicy];
    FoldConcat(START, t.before, input + ([t.inputClose] + (output + body)), os);
    OutsideFold(START, t.before, os);
    FoldConcat(START, input, [t.inputClose] + (output + body), os);
    HeadAndPolicy(START, t.inputIndent, false, t.inputPolicy, os);
    var s1 := Fold(START, input, os);
    FoldConcat(s1, [t.inputClose], output + body, os);
    CloseStep(s1, t.inputClose, os);
    var s2 := s1.(chain := None);
    FoldConcat(s2, output, body, os);
    HeadAndPolicy(s2, t.outputIndent, true, t.outputPolicy, os);
    var s3 := s2.(chain := Some(Output), outputPolicy := Some(Drop));
    FoldConcat(s3, RuleLines(rules, spellings), close, os);
    RuleLinesFold(s3, rules, spellings, os);
    var s4 := s3.(rules := rules);
    assert s3.rules + rules == rules;
    FoldConcat(s4, [t.outputClose], t.after, os);
    CloseStep(s4, t.outputClose, os);
    OutsideFold(s4.(chain := None), t.after, os);
  }

  // ---------------------------------------------------------------- the other lines

  /** `word` stands at `i`, and the other word nowhere before. */
  predicate FirstAt(s: string, word: string, other: string, i: nat) {
    i <= |s| && word <= s[i..] && forall j | 0 <= j < i :: !(other <= s[j..])
  }

  /** The policy a line sets is the first one it mentions. */
  lemma {:induction false} FindPolicyExactlyWhen(s: string)
    ensures FindPolicy(s) == Some(Accept) <==> exists i: nat :: FirstAt(s, "policy accept;", "policy drop;", i)
    ensures FindPolicy(s) == Some(Drop) <==> exists i: nat :: FirstAt(s, "policy drop;", "policy accept;", i)
  {
    PoliciesDiffer(s);
    FirstHere(s, "policy accept;", "policy drop;");
    FirstHere(s, "policy drop;", "policy accept;");
    if s != [] && !("policy accept;" <= s) && !("policy drop;" <= s) {
      FindPolicyExactlyWhen(s[1..]);
      FirstIsLater(s, "policy accept;", "policy drop;");
      FirstIsLater(s, "policy drop;", "policy accept;");
      hide FirstAt;
    }
  }

  lemma PoliciesDiffer(s: string)
    ensures !("policy accept;" <= s && "policy drop;" <= s)
    ensures !("policy accept;" <= []) && !("policy drop;" <= [])
  {
    assert "policy accept;" <= s ==> s[7] == 'a';
    assert "policy drop;" <= s ==> s[7] == 'd';
  }

  /** A word that stands first of all is the first one; with another there, it is not. */
  lemma FirstHere(s: string, word: string, other: string)
    ensures word <= s ==> FirstAt(s, word, other, 0)
    ensures !(word <= s) && other <= s ==> forall i: nat :: !FirstAt(s, word, other, i)
    ensures s == [] && !(word <= s) ==> forall i: nat :: !FirstAt(s, word, other, i)
  {
    assert s[0..] == s;
    forall i: nat | FirstAt(s, word, other, i) && i > 0 ensures !(other <= s) { assert !(other <= s[0..]); }
  }

  lemma FirstIsLater(s: string, word: string, other: string)
    requires s != [] && !(word <= s) && !(other <= s)
    ensures (exists i: nat :: FirstAt(s, word, other, i)) <==> exists i: nat :: FirstAt(s[1..], word, other, i)
  {
    assert s[0..] == s;
    if i: nat :| FirstAt(s, word, other, i) {
      assert s[1..][i - 1..] == s[i..];
      forall j | 0 <= j < i - 1 ensures !(other <= s[1..][j..]) { assert s[1..][j..] == s[j + 1..]; }
      assert FirstAt(s[1..], word, other, i - 1);
    }
    if i: nat :| FirstAt(s[1..], word, other, i) {
      assert s[1..][i..] == s[i + 1..];
      forall j | 0 <= j < i + 1 ensures !(other <= s[j..]) { if j > 0 { assert s[1..][j - 1..] == s[j..]; } }
      assert FirstAt(s, word, other, i + 1);
    }
  }

  function LoopbackIn(): string { "iifname \"lo\" accept" }

  function LoopbackOut(): string { "oifname \"lo\" accept" }

  function EstablishedLine(): string { "ct state established,related accept" }

  function ManagementLine(address: string, port: string): string {
    "ip saddr " + address + " tcp dport " + port + " accept"
  }

  /** The lines the parser passes over in either chain. */
  ghost predicate Skipped(text: string, os: Platform) {
    || text == LoopbackIn() || text == LoopbackOut() || text == EstablishedLine()
    || exists address, port :: text == ManagementLine(address, port) && Spelled(address, port, os)
  }

  predicate Spelled(address: string, port: string, os: Platform) {
    && address != [] && (forall c | c in address :: !os.space(c)) && port != [] && forall c | c in port :: Digit(c)
  }

  lemma ManagementReads(address: string, port: string, os: Platform)
    requires Spelled(address, port, os) && os.space(' ')
    ensures Management(ManagementLine(address, port), os)
  {
    var s := ManagementLine(address, port);
    var rest := " tcp dport " + port + " accept";
    ManagementSlices(address, port);
    RunOver(address, rest, os.space);
    RunOver(port, " accept", NotDigit());
    hide ManagementLine, Run;
  }

  lemma ManagementSlices(address: string, port: string)
    ensures var s, rest := ManagementLine(address, port), " tcp dport " + port + " accept";
            && "ip saddr " <= s && s[9..] == address + rest && s[9 + |address|..] == rest
            && s[9 + |address| + 11..] == port + " accept" && s[9 + |address| + 11 + |port|..] == " accept"
  {
  }

  lemma SkippedIsKnown(text: string, os: Platform)
    requires Skipped(text, os) && Proper(os)
    ensures KnownBase(text, os) && |text| > 8 && text[0] in {'i', 'o', 'c'} && Last(text) == 't'
    ensures text[0] == 'c' ==> text[1] == 't'
  {
    if text != LoopbackIn() && text != LoopbackOut() && text != EstablishedLine() {
      var address, port :| text == ManagementLine(address, port) && Spelled(address, port, os);
      ManagementReads(address, port, os);
    }
  }

  /** A loopback, established or management line leaves the parser where it is, in either chain and however it is
      spaced. */
  lemma SkippedLineSteps(st: State, indent: string, text: string, tail: string, os: Platform)
    requires st.chain.Some? && Skipped(text, os) && Proper(os) && Blank(indent, os.space) && Blank(tail, os.space)
    ensures Step(st, indent + text + tail, os) == st
  {
    SkippedIsKnown(text, os);
    assert Solid(text, os.space);
    StripAround(indent, text, tail, os.space);
    assert !("chain " <= text + tail) by { DiffersAt(text + tail, "chain ", if text[0] == 'c' then 1 else 0); }
    assert !("type " <= text) by { DiffersAt(text, "type ", 0); }
    assert text != "}";
    hide Skipped, KnownBase, Strip, LeftStrip, Proper, Blank, Solid, FindPolicy, ParseRule;
  }
}
