/** First-match evaluation of the output policy, and when a rule is redundant. */
module FirewallEvaluation {
  import opened Firewall
  import opened Options

  /** One egress tuple; protocols other than tcp and udp are all alike to the rules. */
  datatype Packet = Packet(uid: nat, destination: Address, protocol: Protocol, port: nat)

  function Pow2(n: nat): (p: nat)
    ensures p > 0
  {
    if n == 0 then 1 else 2 * Pow2(n - 1)
  }

  predicate ValidAddress(a: Address) { a.width in {32, 128} && a.value < Pow2(a.width) }

  /** Networks `ip_network(..., strict=False)` returns: host bits masked away. */
  predicate ValidNetwork(n: Network) {
    n.width in {32, 128} && n.len <= n.width && n.base < Pow2(n.width) && n.base % Block(n) == 0
  }

  predicate ValidRule(r: Rule) { r.destination.Some? ==> ValidNetwork(r.destination.value) }

  predicate ValidPacket(p: Packet) { ValidAddress(p.destination) }

  /** How many addresses share the network's prefix. */
  function Block(n: Network): (b: nat)
    ensures b > 0
  {
    Pow2(if n.len <= n.width then n.width - n.len else 0)
  }

  /** `address in network`: same version, and equal under the netmask. */
  predicate InNetwork(a: Address, n: Network) { a.width == n.width && a.value - a.value % Block(n) == n.base }

  predicate Matches(r: Rule, p: Packet) {
    && (r.uid.Some? ==> r.uid.value == p.uid)
    && (r.destination.Some? ==> InNetwork(p.destination, r.destination.value))
    && (r.protocol.Some? ==> r.protocol.value == p.protocol)
    && (r.port.Some? ==> r.port.value == p.port)
  }

  function Verdict(rules: seq<Rule>, p: Packet): Action {
    if rules == [] then Drop
    else if Matches(rules[0], p) then rules[0].action
    else Verdict(rules[1..], p)
  }

  /** `evaluate_output_policy`: the action of the first matching rule, else drop. */
  method EvaluateOutputPolicy(rules: seq<Rule>, p: Packet) returns (action: Action)
    ensures action == Verdict(rules, p)
    ensures forall i | 0 <= i < |rules| && Matches(rules[i], p) && (forall j | 0 <= j < i :: !Matches(rules[j], p)) ::
              action == rules[i].action
    ensures (forall i | 0 <= i < |rules| :: !Matches(rules[i], p)) ==> action == Drop
  {
    for i := 0 to |rules|
      invariant forall j | 0 <= j < i :: !Matches(rules[j], p)
      invariant Verdict(rules, p) == Verdict(rules[i..], p)
    {
      var rule := rules[i];
      assert rules[i..][0] == rule && rules[i..][1..] == rules[i + 1..];
      if rule.uid.Some? && rule.uid.value != p.uid { continue; }
      if rule.destination.Some? && !InNetwork(p.destination, rule.destination.value) { continue; }
      if rule.protocol.Some? && rule.protocol.value != p.protocol { continue; }
      if rule.port.Some? && rule.port.value != p.port { continue; }
      return rule.action;
    }
    assert rules[|rules|..] == [];
    return Drop;
  }

  predicate AnyMatches(rules: seq<Rule>, p: Packet) { exists i | 0 <= i < |rules| :: Matches(rules[i], p) }

  lemma {:induction false} VerdictOfConcat(a: seq<Rule>, b: seq<Rule>, p: Packet)
    ensures Verdict(a + b, p) == if AnyMatches(a, p) then Verdict(a, p) else Verdict(b, p)
  {
    hide Matches;
    if a == [] {
      assert a + b == b;
    } else {
      assert (a + b)[1..] == a[1..] + b;
      VerdictOfConcat(a[1..], b, p);
      if AnyMatches(a[1..], p) {
        var i :| 0 <= i < |a[1..]| && Matches(a[1..][i], p);
        assert Matches(a[i + 1], p);
      } else if !Matches(a[0], p) {
        forall i | 0 <= i < |a| ensures !Matches(a[i], p) {
          if i > 0 { assert a[i] == a[1..][i - 1]; }
        }
      }
    }
  }

  predicate SameVerdict(before: seq<Rule>, r: Rule, after: seq<Rule>, p: Packet) {
    Verdict(before + after, p) == Verdict(before + ([r] + after), p)
  }

  /** Where `r` would be the first to match, the rules after it give its action. */
  predicate Superfluous(before: seq<Rule>, r: Rule, after: seq<Rule>, p: Packet) {
    Matches(r, p) && !AnyMatches(before, p) ==> Verdict(after, p) == r.action
  }

  /** Deleting a rule changes no verdict exactly when it is superfluous for every packet. */
  lemma DeletionIsHarmlessExactlyWhen(before: seq<Rule>, r: Rule, after: seq<Rule>)
    ensures (forall p :: SameVerdict(before, r, after, p)) <==> forall p :: Superfluous(before, r, after, p)
  {
    hide AnyMatches, Matches;
    forall p ensures SameVerdict(before, r, after, p) <==> Superfluous(before, r, after, p) {
      VerdictOfConcat(before, after, p);
      VerdictOfConcat(before, [r] + after, p);
      assert ([r] + after)[1..] == after;
    }
  }

  // ---------------------------------------------------------------- CIDR containment

  /** Every packet of `s` is one of `r`, read off the two rules: section 3.1 of RFC 4632 for the destinations. */
  predicate Covers(r: Rule, s: Rule) {
    && (r.uid.Some? ==> s.uid == r.uid) && (r.protocol.Some? ==> s.protocol == r.protocol)
      && (r.port.Some? ==> s.port == r.port)
    && (r.destination.Some? ==> s.destination.Some? && Within(s.destination.value, r.destination.value))
  }

  /** A prefix at least as long, with the same leading bits. */
  predicate Within(n: Network, m: Network) {
    n.width == m.width && m.len <= n.len && n.base - n.base % Block(m) == m.base
  }

  /** The whole address space is a network, and covers every network of its family. */
  lemma DefaultRouteCoversAll(n: Network)
    requires ValidNetwork(n)
    ensures ValidNetwork(Network(n.width, 0, 0)) && Within(n, Network(n.width, 0, 0))
    ensures ValidRule(Rule(Drop, Some(Network(n.width, 0, 0)), None, None, None))
  {
    SmallRemainder(n.base, Pow2(n.width));
    SmallRemainder(0, Pow2(n.width));
    hide Pow2;
  }

  lemma SmallRemainder(x: nat, b: nat)
    requires x < b
    ensures x % b == x
  {
  }

  lemma TwiceProduct(x: nat, y: nat)
    ensures 2 * (x * y) == (2 * x) * y
  {
  }

  lemma {:induction false} Pow2Splits(a: nat, b: nat)
    ensures Pow2(a + b) == Pow2(a) * Pow2(b)
  {
    if a > 0 {
      Pow2Splits(a - 1, b);
      TwiceProduct(Pow2(a - 1), Pow2(b));
    }
  }

  lemma Scaled(i: int, j: int, b: nat)
    requires i <= j
    ensures i * b <= j * b
  {
  }

  lemma MultiplesApart(x: nat, y: nat, b: nat)
    requires b > 0 && x % b == 0 && y % b == 0 && x < y
    ensures x + b <= y
  {
    var i, j := x / b, y / b;
    assert x == i * b && y == j * b;
    if j <= i { Scaled(j, i, b); }
    Scaled(i + 1, j, b);
    assert (i + 1) * b == x + b;
  }

  lemma DividesProduct(k: nat, b: nat)
    requires b > 0
    ensures (k * b) % b == 0
  {
    var q, r := (k * b) / b, (k * b) % b;
    assert q * b + r == k * b && (q + 1) * b == q * b + b;
    if q < k { Scaled(q + 1, k, b); } else { Scaled(k, q, b); }
  }

  lemma MultipleOfMultiple(x: nat, k: nat, b: nat)
    requires b > 0 && k > 0 && k * b > 0 && x % (k * b) == 0
    ensures x % b == 0
  {
    var j := x / (k * b);
    assert x == j * (k * b) == (j * k) * b;
    DividesProduct(j * k, b);
  }

  /** Equal under a netmask means inside the block. */
  lemma MaskIsInterval(v: nat, base: nat, b: nat)
    requires b > 0 && base % b == 0
    ensures v - v % b == base <==> base <= v < base + b
  {
    var q, r, k := v / b, v % b, base / b;
    assert v == q * b + r && base == k * b;
    if q == k { assert v - r == base; }
    if q > k {
      Scaled(k + 1, q, b);
      assert (k + 1) * b == base + b;
    }
    if q < k {
      Scaled(q + 1, k, b);
      assert (q + 1) * b == q * b + b;
    }
  }

  lemma BlocksNest(n: Network, m: Network)
    requires ValidNetwork(n) && ValidNetwork(m) && n.width == m.width && m.len <= n.len
    ensures Block(m) % Block(n) == 0 && (m.len < n.len ==> Block(n) < Block(m))
    ensures m.base % Block(n) == 0
  {
    Pow2Splits(n.len - m.len, n.width - n.len);
    var k, b := Pow2(n.len - m.len), Block(n);
    assert Block(m) == k * b;
    if m.len < n.len { assert k >= 2; }
    hide Pow2, Block;
    DividesProduct(k, b);
    MultipleOfMultiple(m.base, k, b);
    if m.len < n.len { Scaled(2, k, b); }
  }

  lemma BlockFits(n: Network)
    requires ValidNetwork(n)
    ensures n.base + Block(n) <= Pow2(n.width)
  {
    Pow2Splits(n.len, n.width - n.len);
    DividesProduct(Pow2(n.len), Block(n));
    MultiplesApart(n.base, Pow2(n.width), Block(n));
  }

  /** The two ends of a network decide whether it lies within another. */
  lemma WithinExactly(n: Network, m: Network)
    requires ValidNetwork(n) && ValidNetwork(m)
    ensures Within(n, m) ==> forall a | InNetwork(a, n) :: InNetwork(a, m)
    ensures !Within(n, m) ==>
      !InNetwork(Address(n.width, n.base), m) || !InNetwork(Address(n.width, n.base + Block(n) - 1), m)
  {
    hide Pow2, Block;
    var b, c := Block(n), Block(m);
    MaskIsInterval(n.base, m.base, c);
    MaskIsInterval(n.base + b - 1, m.base, c);
    if Within(n, m) {
      BlocksNest(n, m);
      assert n.base < m.base + c;
      SumOfMultiples(m.base, c, b);
      MultiplesApart(n.base, m.base + c, b);
      forall a | InNetwork(a, n) ensures InNetwork(a, m) {
        MaskIsInterval(a.value, n.base, b);
        MaskIsInterval(a.value, m.base, c);
      }
    } else if n.width == m.width && n.len < m.len {
      BlocksNest(m, n);
    }
  }

  lemma SumOfMultiples(x: nat, y: nat, b: nat)
    requires b > 0 && x % b == 0 && y % b == 0
    ensures (x + y) % b == 0
  {
    var i, j := x / b, y / b;
    assert x + y == (i + j) * b;
    DividesProduct(i + j, b);
  }

  lemma NetworkHasEnds(n: Network)
    requires ValidNetwork(n)
    ensures InNetwork(Address(n.width, n.base), n) && InNetwork(Address(n.width, n.base + Block(n) - 1), n)
    ensures ValidAddress(Address(n.width, n.base)) && ValidAddress(Address(n.width, n.base + Block(n) - 1))
  {
    BlockFits(n);
    MaskIsInterval(n.base, n.base, Block(n));
    MaskIsInterval(n.base + Block(n) - 1, n.base, Block(n));
  }

  /** An address in the network `n` (or in none) that `m` does not hold. */
  lemma AddressOutside(n: Option<Network>, m: Network) returns (a: Address)
    requires ValidNetwork(m) && (n.Some? ==> ValidNetwork(n.value) && !Within(n.value, m))
    ensures ValidAddress(a) && (n.Some? ==> InNetwork(a, n.value)) && !InNetwork(a, m)
  {
    if n.Some? {
      NetworkHasEnds(n.value);
      WithinExactly(n.value, m);
      a := Address(n.value.width, n.value.base);
      if InNetwork(a, m) { a := Address(n.value.width, n.value.base + Block(n.value) - 1); }
    } else {
      a := Address(if m.width == 32 then 128 else 32, 0);
    }
  }

  lemma SomeAddress(n: Option<Network>) returns (a: Address)
    requires n.Some? ==> ValidNetwork(n.value)
    ensures ValidAddress(a) && (n.Some? ==> InNetwork(a, n.value))
  {
    if n.Some? {
      NetworkHasEnds(n.value);
      a := Address(n.value.width, n.value.base);
    } else {
      a := Address(32, 0);
    }
  }

  function OtherThan(p: Protocol): Protocol { if p == Tcp then Udp else Tcp }

  /** A packet of `s` that `r` misses. */
  lemma UncoveredPacket(r: Rule, s: Rule) returns (p: Packet)
    requires ValidRule(r) && ValidRule(s) && !Covers(r, s)
    ensures ValidPacket(p) && Matches(s, p) && !Matches(r, p)
  {
    hide Pow2, Block, InNetwork, Within, ValidNetwork, ValidAddress;
    var a := SomeAddress(s.destination);
    p := Packet(if s.uid.Some? then s.uid.value else if r.uid.Some? then r.uid.value + 1 else 0, a,
                if s.protocol.Some? then s.protocol.value else if r.protocol.Some? then OtherThan(r.protocol.value)
                  else Tcp,
                if s.port.Some? then s.port.value else if r.port.Some? then r.port.value + 1 else 0);
    if r.destination.Some? && !(s.destination.Some? && Within(s.destination.value, r.destination.value)) {
      var b := AddressOutside(s.destination, r.destination.value);
      p := p.(destination := b);
    }
  }

  /** The syntactic cover is exact: it holds exactly when every packet the covered rule matches, the covering one
      does. */
  lemma CoversExactly(r: Rule, s: Rule)
    requires ValidRule(r) && ValidRule(s)
    ensures Covers(r, s) <==> forall p | ValidPacket(p) && Matches(s, p) :: Matches(r, p)
  {
    if Covers(r, s) {
      if r.destination.Some? { WithinExactly(s.destination.value, r.destination.value); }
    } else {
      var p := UncoveredPacket(r, s);
    }
  }

  /** A rule covered by an earlier one never decides: deleting it changes no verdict. */
  lemma CoveredRuleIsRedundant(before: seq<Rule>, r: Rule, after: seq<Rule>, i: nat, p: Packet)
    requires i < |before| && ValidRule(before[i]) && ValidRule(r) && Covers(before[i], r) && ValidPacket(p)
    ensures Verdict(before + after, p) == Verdict(before + ([r] + after), p)
  {
    CoversExactly(before[i], r);
    VerdictOfConcat(before, after, p);
    VerdictOfConcat(before, [r] + after, p);
    assert ([r] + after)[1..] == after;
  }
}
