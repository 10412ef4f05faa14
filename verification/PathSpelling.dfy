/** What a path spelling is: the components between slashes, and which paths `pathlib` spells as they stand. */
module PathSpelling {
  import opened PosixPath
  import opened RootfsDigest

  // ---------------------------------------------------------------- what the components are

  lemma CutOfOneMore(b: Bytes, c: Byte)
    ensures CutAt(b + [c]) == if c == SLASH then Cut(Components(b), []) else Cut(CutAt(b).done, CutAt(b).open + [c])
  {
    assert (b + [c])[..|b|] == b;
  }

  lemma Regroup<T>(a: seq<T>, b: seq<T>, c: seq<T>)
    ensures a + (b + c) == a + b + c
  {
  }

  lemma OneMoreBehind(a: Bytes, b: Bytes)
    requires b != []
    ensures a + [SLASH] + b[..|b| - 1] + [b[|b| - 1]] == a + [SLASH] + b
  {
  }

  lemma {:induction false} CutOfConcat(a: Bytes, b: Bytes)
    ensures CutAt(a + [SLASH] + b) == Cut(Components(a) + CutAt(b).done, CutAt(b).open)
  {
    CutOfOneMore(a, SLASH);
    if b == [] {
      assert a + [SLASH] + b == a + [SLASH] && Components(a) + [] == Components(a);
    } else {
      var init, c := b[..|b| - 1], b[|b| - 1];
      CutOfConcat(a, init);
      CutOfOneMore(init, c);
      CutOfOneMore(a + [SLASH] + init, c);
      OneMoreBehind(a, b);
      assert init + [c] == b;
      hide CutAt, Kept;
      Regroup(Components(a), CutAt(init).done, Kept(CutAt(init).open));
    }
  }

  /** A slash separates components, wherever it stands. */
  lemma ComponentsSplit(a: Bytes, b: Bytes)
    ensures Components(a + [SLASH] + b) == Components(a) + Components(b)
  {
    CutOfConcat(a, b);
    assert Components(a) + CutAt(b).done + Kept(CutAt(b).open) == Components(a) + (CutAt(b).done + Kept(CutAt(b).open));
  }

  lemma {:induction false} CutOfName(c: Bytes)
    requires SLASH !in c
    ensures CutAt(c) == Cut([], c)
  {
    if c != [] {
      CutOfName(c[..|c| - 1]);
      assert c[..|c| - 1] + [c[|c| - 1]] == c;
    }
  }

  /** Between slashes everything is one component, ".." included; only nothing and "." count for none. */
  lemma ComponentsOfName(c: Bytes)
    requires SLASH !in c
    ensures Components(c) == if c == [] || c == [DOT] then [] else [c]
  {
    CutOfName(c);
  }

  lemma {:induction false} StripSays(b: Bytes)
    ensures var c := StripTrailing(b);
            && c <= b && (c != [] ==> c[|c| - 1] != SLASH) && forall i | |c| <= i < |b| :: b[i] == SLASH
  {
    if b != [] && b[|b| - 1] == SLASH { StripSays(b[..|b| - 1]); }
  }

  /** A cleaned name: one leading "./" is gone, and every trailing slash. */
  lemma CleanPathSays(name: Bytes)
    ensures var dotted := |name| >= 2 && name[..2] == [DOT, SLASH];
            var rest, c := if dotted then name[2..] else name, CleanPath(name);
            && c <= rest && (c != [] ==> c[|c| - 1] != SLASH) && forall i | |c| <= i < |rest| :: rest[i] == SLASH
  {
    StripSays(if StartsDotSlash(name) then name[2..] else name);
  }

  predicate Name(c: Bytes) { SLASH !in c && c != [] && c != [DOT] }

  predicate Names(cs: seq<Bytes>) { forall i | 0 <= i < |cs| :: Name(cs[i]) }

  /** Splitting undoes joining. */
  lemma {:induction false} ComponentsOfJoin(cs: seq<Bytes>)
    requires Names(cs)
    ensures Components(JoinPath(cs)) == cs
  {
    if cs == [] {
      ComponentsOfName([]);
    } else {
      ComponentsOfName(cs[0]);
      assert cs == [cs[0]] + cs[1..];
      if |cs| > 1 {
        ComponentsOfJoin(cs[1..]);
        ComponentsSplit(cs[0], JoinPath(cs[1..]));
      }
    }
  }

  lemma {:induction false} CutHasNames(b: Bytes)
    ensures Names(CutAt(b).done) && SLASH !in CutAt(b).open
  {
    if b != [] { CutHasNames(b[..|b| - 1]); }
  }

  lemma ComponentsAreNames(b: Bytes)
    ensures Names(Components(b))
  {
    CutHasNames(b);
  }

  // ---------------------------------------------------------------- which paths are spelled as pathlib spells them

  /** A "." between slashes or ends. */
  predicate LoneDot(b: Bytes, i: nat)
    requires i < |b|
  {
    b[i] == DOT && (i == 0 || b[i - 1] == SLASH) && (i + 1 == |b| || b[i + 1] == SLASH)
  }

  /** No slash first, last or next to another, and no "." for a component. */
  predicate Neat(b: Bytes) {
    && (b != [] ==> b[0] != SLASH && b[|b| - 1] != SLASH)
    && (forall i | 0 <= i < |b| - 1 :: b[i] != SLASH || b[i + 1] != SLASH)
    && forall i | 0 <= i < |b| :: !LoneDot(b, i)
  }

  /** How many slashes come first. */
  function Leading(b: Bytes): (n: nat)
    ensures n <= |b| && (forall i | 0 <= i < n :: b[i] == SLASH) && (n < |b| ==> b[n] != SLASH)
  {
    if b != [] && b[0] == SLASH then 1 + Leading(b[1..]) else 0
  }

  /** A path as `as_posix` leaves it: ".", or at most two leading slashes and a neat rest. */
  predicate Tidy(b: Bytes) { b == [DOT] || (b != [] && Leading(b) <= 2 && Neat(b[Leading(b)..])) }

  lemma {:induction false} JoinIsNeat(cs: seq<Bytes>)
    requires Names(cs)
    ensures Neat(JoinPath(cs)) && (cs != [] ==> JoinPath(cs) != [] && cs[0] <= JoinPath(cs))
  {
    if |cs| > 1 {
      JoinIsNeat(cs[1..]);
      NeatTogether(cs[0], JoinPath(cs[1..]));
    }
  }

  lemma NeatTogether(c: Bytes, b: Bytes)
    requires Name(c) && Neat(b) && b != []
    ensures Neat(c + [SLASH] + b)
  {
    var s := c + [SLASH] + b;
    if |c| == 1 { assert c == [c[0]]; }
    forall i | 0 <= i < |s| ensures !LoneDot(s, i) {
      if i > |c| { assert !LoneDot(b, i - |c| - 1); }
    }
  }

  /** How many bytes come before the first slash. */
  function Upto(b: Bytes): (n: nat)
    ensures n <= |b| && SLASH !in b[..n] && (n < |b| ==> b[n] == SLASH)
  {
    if b == [] || b[0] == SLASH then 0 else 1 + Upto(b[1..])
  }

  lemma NeatApart(b: Bytes, n: nat)
    requires Neat(b) && n < |b| && b[n] == SLASH && SLASH !in b[..n]
    ensures Name(b[..n]) && Neat(b[n + 1..]) && b[n + 1..] != [] && b == b[..n] + [SLASH] + b[n + 1..]
  {
    assert !LoneDot(b, 0) && (n == 1 ==> b[..n] == [b[0]]);
    var r := b[n + 1..];
    forall i | 0 <= i < |r| ensures !LoneDot(r, i) { assert !LoneDot(b, n + 1 + i); }
  }

  lemma LoneDotIsNotNeat()
    ensures !Neat([DOT])
  {
    assert LoneDot([DOT], 0);
  }

  lemma {:induction false} NeatIsItsLocation(b: Bytes)
    requires Neat(b)
    ensures Location(b) == b
    decreases |b|
  {
    var n := Upto(b);
    LoneDotIsNotNeat();
    if n == |b| {
      assert b[..n] == b;
      ComponentsOfName(b);
    } else {
      NeatApart(b, n);
      var c, r := b[..n], b[n + 1..];
      NeatIsItsLocation(r);
      ComponentsSplit(c, r);
      ComponentsOfName(c);
      hide Components, Neat;
      assert Components(r) != [];
      assert ([c] + Components(r))[1..] == Components(r);
    }
  }

  lemma {:induction false} LeadingSlashesDrop(b: Bytes)
    ensures Location(b) == Location(b[Leading(b)..])
  {
    if b != [] && b[0] == SLASH {
      LeadingSlashesDrop(b[1..]);
      assert b == [] + [SLASH] + b[1..];
      ComponentsSplit([], b[1..]);
      ComponentsOfName([]);
      assert [] + Components(b[1..]) == Components(b[1..]);
      assert b[1..][Leading(b[1..])..] == b[Leading(b)..];
    } else {
      assert b[0..] == b;
    }
  }

  lemma RootByLeading(b: Bytes)
    ensures Root(b) == if Leading(b) == 0 then [] else if Leading(b) == 2 then [SLASH, SLASH] else [SLASH]
  {
  }

  lemma LocationIsNeat(b: Bytes)
    ensures Neat(Location(b))
  {
    ComponentsAreNames(b);
    JoinIsNeat(Components(b));
  }

  lemma OneSlashMore(b: Bytes)
    ensures Leading([SLASH] + b) == 1 + Leading(b)
  {
    assert ([SLASH] + b)[1..] == b;
  }

  lemma LeadingOf(root: Bytes, rest: Bytes)
    requires root == [] || root == [SLASH] || root == [SLASH, SLASH]
    requires rest != [] ==> rest[0] != SLASH
    ensures Leading(root + rest) == |root| && (root + rest)[|root|..] == rest
  {
    OneSlashMore(rest);
    OneSlashMore([SLASH] + rest);
    assert [] + rest == rest && [SLASH] + ([SLASH] + rest) == [SLASH, SLASH] + rest;
  }

  lemma SpellingIsTidy(b: Bytes)
    ensures Tidy(PosixSpelling(b))
  {
    LocationIsNeat(b);
    RootByLeading(b);
    hide Location, Root, Leading;
    LeadingOf(Root(b), Location(b));
  }

  /** A path is its own spelling, ".." and all, exactly when it is tidy; and every spelling is. */
  lemma OwnSpellingExactlyWhen(b: Bytes)
    ensures PosixSpelling(b) == b <==> Tidy(b)
    ensures PosixSpelling(PosixSpelling(b)) == PosixSpelling(b)
  {
    SpellingIsTidy(b);
    TidyIsOwn(PosixSpelling(b));
    if Tidy(b) { TidyIsOwn(b); }
  }

  lemma LeadingPart(b: Bytes)
    ensures b == b[..Leading(b)] + b[Leading(b)..]
    ensures Leading(b) <= 2 ==> b[..Leading(b)] == Root(b)
  {
    RootByLeading(b);
    hide Root;
  }

  lemma TidyIsOwn(b: Bytes)
    requires Tidy(b)
    ensures PosixSpelling(b) == b
  {
    if b == [DOT] {
      ComponentsOfName(b);
    } else {
      LeadingSlashesDrop(b);
      NeatIsItsLocation(b[Leading(b)..]);
      LeadingPart(b);
      hide Location, Root, Leading, Neat;
    }
  }
}
