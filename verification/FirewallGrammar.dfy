/** Every line the rule parser accepts is a rule of the grammar, spelled out: nothing else is read as one. */
module FirewallGrammar {
  import opened Firewall
  import opened FirewallRoundTrip
  import opened Options
  import opened Text

  /** A keyword, then something other than spaces, then spaces. */
  ghost predicate Worded(text: string, keyword: string, run: string, space: char -> bool) {
    run != [] && exists gap :: gap != [] && Blank(gap, space) && text == keyword + run + gap
  }

  predicate AllDigits(ds: string)
    ensures AllDigits(ds) ==> forall c | c in ds :: Digit(c)
  {
    forall c | c in ds :: '0' <= c <= '9'
  }

  /** A keyword, a number in decimal digits, leading zeros allowed, and spaces; or nothing. */
  ghost predicate NumberGroup(text: string, keyword: string, n: Option<nat>, space: char -> bool) {
    if n.None? then text == []
    else exists ds :: Worded(text, keyword, ds, space) && AllDigits(ds) && Number(ds) == n.value
  }

  lemma {:induction false} LeftStripSays(s: string, space: char -> bool) returns (blank: string)
    ensures s == blank + LeftStrip(s, space) && Blank(blank, space)
    ensures LeftStrip(s, space) == [] || !space(LeftStrip(s, space)[0])
    ensures s != [] && space(s[0]) ==> blank != []
  {
    blank := [];
    if s != [] && space(s[0]) {
      var more := LeftStripSays(s[1..], space);
      blank := [s[0]] + more;
      assert s == [s[0]] + s[1..];
    }
  }

  lemma GroupSays(s: string, keyword: string, stop: char -> bool, space: char -> bool) returns (text: string)
    requires Group(s, keyword, stop, space).Some?
    ensures var r := Group(s, keyword, stop, space).value;
            s == text + r.1 && Worded(text, keyword, r.0, space) && forall c | c in r.0 :: !stop(c)
  {
    var t := s[|keyword|..];
    var n := Run(t, stop);
    var gap := LeftStripSays(t[n..], space);
    text := keyword + t[..n] + gap;
    assert t[n..][0] == t[n];
    assert s == keyword + t && t == t[..n] + t[n..];
  }

  lemma UidSays(s: string, space: char -> bool) returns (text: string)
    ensures var r := ReadUid(s, space); s == text + r.1 && NumberGroup(text, UidWord(), r.0, space)
  {
    text := [];
    if Group(s, UidWord(), NotDigit(), space).Some? { text := GroupSays(s, UidWord(), NotDigit(), space); }
  }

  lemma DestinationSays(s: string, space: char -> bool) returns (text: string)
    ensures var r := ReadDestination(s, space);
            && s == text + r.1
            && (r.0.None? ==> text == [])
            && (r.0.Some? ==>
                  && (forall c | c in r.0.value :: !space(c))
                  && (Worded(text, Ip4Word(), r.0.value, space) || Worded(text, Ip6Word(), r.0.value, space)))
  {
    text := [];
    if Group(s, Ip4Word(), space, space).Some? { text := GroupSays(s, Ip4Word(), space, space); }
    else if Group(s, Ip6Word(), space, space).Some? { text := GroupSays(s, Ip6Word(), space, space); }
  }

  lemma PortSays(s: string, space: char -> bool) returns (text: string)
    ensures var r := ReadPort(s, space);
            && s == text + r.1
            && (r.0.None? ==> text == [])
            && (r.0.Some? ==>
                  && (r.0.value.0 == Tcp || r.0.value.0 == Udp)
                  && NumberGroup(text, if r.0.value.0 == Tcp then TcpWord() else UdpWord(), Some(r.0.value.1), space))
  {
    text := [];
    if Group(s, TcpWord(), NotDigit(), space).Some? { text := GroupSays(s, TcpWord(), NotDigit(), space); }
    else if Group(s, UdpWord(), NotDigit(), space).Some? { text := GroupSays(s, UdpWord(), NotDigit(), space); }
  }

  lemma ActionSays(s: string, space: char -> bool) returns (tail: string)
    requires ReadAction(s, space).Some?
    ensures Blank(tail, space) && s == ActionWord(ReadAction(s, space).value) + tail
  {
    var word := ActionWord(ReadAction(s, space).value);
    tail := LeftStripSays(s[|word|..], space);
    assert s == word + s[|word|..] && tail + [] == tail;
  }

  function ActionWord(a: Action): string { if a == Accept then AcceptWord() else DropWord() }

  /** A family keyword, the text of the network it reads as, and spaces; or nothing. */
  ghost predicate DestinationGroup(text: string, n: Option<Network>, os: Platform) {
    if n.None? then text == []
    else exists spelled ::
      && os.read(spelled) == n && (forall c | c in spelled :: !os.space(c))
      && (Worded(text, Ip4Word(), spelled, os.space) || Worded(text, Ip6Word(), spelled, os.space))
  }

  lemma InOrder(line: string, a: string, b: string, c: string, d: string, e: string, f: string, s1: string, s2: string,
      s3: string, s4: string)
    requires line == a + s1 && s1 == b + s2 && s2 == c + s3 && s3 == d + s4 && s4 == e + f
    ensures line == a + b + c + d + e + f
  {
  }

  /** Converse to reading back: a line that is read as a rule consists of its groups, in order, each present exactly
      when the rule has it, and says exactly what the rule says. */
  lemma AcceptedLineSpellsItsRule(line: string, os: Platform)
    returns (indent: string, uid: string, destination: string, port: string, tail: string)
    requires ParseRule(line, os).Some?
    ensures Blank(indent, os.space) && Blank(tail, os.space)
    ensures var r := ParseRule(line, os).value;
            && line == indent + uid + destination + port + ActionWord(r.action) + tail
            && NumberGroup(uid, UidWord(), r.uid, os.space)
            && DestinationGroup(destination, r.destination, os)
            && InGrammar(r)
            && NumberGroup(port, if r.protocol == Some(Tcp) then TcpWord() else UdpWord(), r.port, os.space)
  {
    hide LeftStrip, ReadUid, ReadDestination, ReadPort, ReadAction, Worded, Blank, UidWord, Ip4Word, Ip6Word, TcpWord,
      UdpWord, ActionWord;
    indent := LeftStripSays(line, os.space);
    var s1 := LeftStrip(line, os.space);
    uid := UidSays(s1, os.space);
    var s2 := ReadUid(s1, os.space).1;
    destination := DestinationSays(s2, os.space);
    var s3 := ReadDestination(s2, os.space).1;
    port := PortSays(s3, os.space);
    var s4 := ReadPort(s3, os.space).1;
    tail := ActionSays(s4, os.space);
    InOrder(line, indent, uid, destination, port, ActionWord(ReadAction(s4, os.space).value), tail, s1, s2, s3, s4);
  }

  /** ASCII white space, and one network known by its spelling. */
  function AsciiPlatform(spelled: string, n: Network): Platform {
    Platform(c => c == ' ' || c == '\t', c => c == '\n', text => if text == spelled then Some(n) else None)
  }

  lemma AsciiIsProper(spelled: string, n: Network)
    ensures Proper(AsciiPlatform(spelled, n))
  {
  }

  lemma Numbers()
    ensures Decimal(1000) == "1000" && Decimal(443) == "443"
  {
    SmallDecimal(1);
    DecimalOneMore(10);
    DecimalOneMore(100);
    DecimalOneMore(1000);
    SmallDecimal(4);
    DecimalOneMore(44);
    DecimalOneMore(443);
  }

  /** A line as nft prints it. */
  function PrintedLine(): string { "\t\tmeta skuid 1000 " + "ip daddr 10.0.0.0/8 " + "tcp dport 443 accept" }

  lemma PrintedRule(n: Network)
    ensures ParseRule(PrintedLine(), AsciiPlatform("10.0.0.0/8", n))
         == Some(Rule(Accept, Some(n), Some(1000), Some(Tcp), Some(443)))
  {
    var r := Rule(Accept, Some(n), Some(1000), Some(Tcp), Some(443));
    var sp := Spelling("\t\t", " ", "", false, "10.0.0.0/8");
    AsciiIsProper("10.0.0.0/8", n);
    PrintedText(r, sp);
    PrintedSpells(r, sp, n);
    hide RuleText, ParseRule, Proper, Spells, PrintedLine, AsciiPlatform;
    RuleReadsBack(r, sp, AsciiPlatform("10.0.0.0/8", n));
  }

  lemma PrintedSpells(r: Rule, sp: Spelling, n: Network)
    requires r == Rule(Accept, Some(n), Some(1000), Some(Tcp), Some(443))
    requires sp == Spelling("\t\t", " ", "", false, "10.0.0.0/8")
    ensures Spells(sp, r, AsciiPlatform("10.0.0.0/8", n))
  {
  }

  lemma PrintedText(r: Rule, sp: Spelling)
    requires r.uid == Some(1000) && r.destination.Some? && r.protocol == Some(Tcp) && r.port == Some(443)
    requires r.action == Accept && sp == Spelling("\t\t", " ", "", false, "10.0.0.0/8")
    ensures RuleText(r, sp) == PrintedLine()
  {
    Numbers();
    var uid, destination, port := UidWord() + "1000" + " ", Ip4Word() + "10.0.0.0/8" + " ",
        TcpWord() + "443" + " " + AcceptWord();
    PrintedParts();
    hide Decimal, UidWord, Ip4Word, TcpWord, AcceptWord;
    assert PortText(r, sp) == port;
    assert DestinationText(r, sp) == destination + port;
    assert RuleBody(r, sp) == uid + (destination + port);
    assert "\t\t" + (uid + (destination + port)) + "" == "\t\t" + uid + destination + port;
  }

  lemma PrintedParts()
    ensures "\t\t" + (UidWord() + "1000" + " ") == "\t\tmeta skuid 1000 "
    ensures Ip4Word() + "10.0.0.0/8" + " " == "ip daddr 10.0.0.0/8 "
    ensures TcpWord() + "443" + " " + AcceptWord() == "tcp dport 443 accept"
  {
  }

  // ---------------------------------------------------------------- the other lines

  /** A chain header is its indentation, "chain ", a name without spaces and " {", and nothing else. */
  lemma ChainLineSpells(line: string, os: Platform) returns (indent: string)
    requires ChainName(line, os).Some?
    ensures var name := ChainName(line, os).value;
            && Blank(indent, os.space) && line == indent + "chain " + name + " {"
            && name != [] && forall c | c in name :: !os.space(c)
  {
    indent := LeftStripSays(line, os.space);
    var s := LeftStrip(line, os.space);
    var name := ChainName(line, os).value;
    assert s[6..] == name + s[6 + |name|..];
    assert s == "chain " + s[6..];
    assert indent + ("chain " + (name + " {")) == indent + "chain " + name + " {";
  }

  lemma ManagementParts(s: string, os: Platform) returns (n: nat, d: nat)
    requires Management(s, os)
    ensures n > 0 && d > 0 && 9 + n + 11 + d <= |s|
    ensures "ip saddr " <= s && " tcp dport " <= s[9 + n..] && s[9 + n + 11 + d..] == " accept"
    ensures Spelled(s[9..][..n], s[9 + n + 11..][..d], os)
  {
    n := Run(s[9..], os.space);
    d := Run(s[9 + n + 11..], NotDigit());
  }

  lemma ManagementSpells(s: string, os: Platform) returns (address: string, port: string)
    requires Management(s, os)
    ensures s == ManagementLine(address, port) && Spelled(address, port, os)
  {
    hide Management, Run, ManagementLine;
    var n, d := ManagementParts(s, os);
    var a, b, c := s[9..], s[9 + n..], s[9 + n + 11..];
    address, port := a[..n], c[..d];
    AfterPrefix("ip saddr ", s);
    DropDrop(s, 9, n);
    AfterPrefix(" tcp dport ", b);
    DropDrop(s, 9 + n, 11);
    DropDrop(s, 9 + n + 11, d);
    Halves(a, n);
    Halves(c, d);
    ManagementInOrder(s, address, port, a, b, c, c[d..]);
  }

  lemma AfterPrefix(prefix: string, s: string)
    requires prefix <= s
    ensures s == prefix + s[|prefix|..]
  {
  }

  lemma DropDrop(s: string, i: nat, j: nat)
    requires i + j <= |s|
    ensures s[i..][j..] == s[i + j..]
  {
  }

  lemma Halves(s: string, n: nat)
    requires n <= |s|
    ensures s == s[..n] + s[n..]
  {
  }

  lemma ManagementInOrder(s: string, address: string, port: string, a: string, b: string, c: string, d: string)
    requires s == "ip saddr " + a && a == address + b && b == " tcp dport " + c && c == port + d && d == " accept"
    ensures s == ManagementLine(address, port)
  {
  }

  /** The parser passes over exactly the loopback, established and management lines. */
  lemma KnownExactlyWhen(text: string, os: Platform)
    requires Proper(os)
    ensures KnownBase(text, os) <==> Skipped(text, os)
  {
    if Skipped(text, os) { SkippedIsKnown(text, os); }
    if Management(text, os) { var address, port := ManagementSpells(text, os); }
  }
}
