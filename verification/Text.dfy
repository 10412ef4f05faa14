/** Python's string operations the text modules share: lines, words, joining, substring. */
module Text {
  import opened Numerals

  /** `n in h`, for strings and for lists of words alike. */
  predicate Contains<T(==)>(h: seq<T>, n: seq<T>) { exists i | 0 <= i <= |h| :: FoundAt(h, n, i) }

  predicate FoundAt<T(==)>(h: seq<T>, n: seq<T>, i: nat) { i + |n| <= |h| && h[i..i + |n|] == n }

  /** How many leading characters are not separators. */
  function Run(s: string, sep: char -> bool): (n: nat)
    ensures n <= |s| && (forall i | 0 <= i < n :: !sep(s[i])) && (n < |s| ==> sep(s[n]))
  {
    if s == [] || sep(s[0]) then 0 else 1 + Run(s[1..], sep)
  }

  /** `s.split()`: the maximal runs between separators. */
  function Words(s: string, sep: char -> bool): seq<string> {
    if s == [] then []
    else if sep(s[0]) then Words(s[1..], sep)
    else [s[..Run(s, sep)]] + Words(s[Run(s, sep)..], sep)
  }

  /** `s.splitlines()`, one break per line-ending character: a "\r\n" then counts as a break and an empty line. */
  function Lines(s: string, eol: char -> bool): seq<string> {
    var n := Run(s, eol);
    if n == |s| then [s] else [s[..n]] + Lines(s[n + 1..], eol)
  }

  function Join(ws: seq<string>): string {
    if ws == [] then "" else if |ws| == 1 then ws[0] else ws[0] + " " + Join(ws[1..])
  }

  predicate Word(w: string, sep: char -> bool) { w != [] && forall c | c in w :: !sep(c) }

  predicate AllWords(ws: seq<string>, sep: char -> bool) { forall w | w in ws :: Word(w, sep) }

  lemma {:induction false} WordsAreWords(s: string, sep: char -> bool)
    ensures AllWords(Words(s, sep), sep)
    decreases |s|
  {
    if s != [] {
      if sep(s[0]) {
        WordsAreWords(s[1..], sep);
      } else {
        WordsAreWords(s[Run(s, sep)..], sep);
        forall c | c in s[..Run(s, sep)] ensures !sep(c) { }
      }
    }
  }

  lemma {:induction false} RunOver(w: string, rest: string, sep: char -> bool)
    requires (forall c | c in w :: !sep(c)) && (rest != [] ==> sep(rest[0]))
    ensures Run(w + rest, sep) == |w|
  {
    if w == [] {
      assert w + rest == rest;
    } else {
      assert (w + rest)[1..] == w[1..] + rest;
      RunOver(w[1..], rest, sep);
    }
  }

  /** Splitting undoes joining. */
  lemma {:induction false} WordsOfJoin(ws: seq<string>, sep: char -> bool)
    requires AllWords(ws, sep) && sep(' ')
    ensures Words(Join(ws), sep) == ws
  {
    if ws != [] {
      var w := ws[0];
      assert Word(w, sep);
      assert !sep(w[0]) by { assert w[0] in w; }
      var rest := if |ws| == 1 then "" else " " + Join(ws[1..]);
      assert Join(ws) == w + rest;
      RunOver(w, rest, sep);
      assert (w + rest)[..|w|] == w && (w + rest)[|w|..] == rest;
      if |ws| == 1 {
        assert ws == [w];
      } else {
        assert rest[1..] == Join(ws[1..]);
        WordsOfJoin(ws[1..], sep);
        assert ws == [w] + ws[1..];
      }
    }
  }

  /** A separator between two texts separates their words. */
  lemma {:induction false} WordsOfConcat(a: string, c: char, b: string, sep: char -> bool)
    requires sep(c)
    ensures Words(a + [c] + b, sep) == Words(a, sep) + Words(b, sep)
    decreases |a|
  {
    var n, s := Run(a, sep), a + [c] + b;
    if a == [] {
      assert s[1..] == b && Words(a, sep) + Words(b, sep) == Words(b, sep);
    } else if sep(a[0]) {
      assert s[1..] == a[1..] + [c] + b;
      WordsOfConcat(a[1..], c, b, sep);
    } else {
      AppendedSlices(a, c, b, n);
      RunOver(a[..n], a[n..] + [c] + b, sep);
      assert s[n..] == a[n..] + [c] + b;
      WordsOfConcat(a[n..], c, b, sep);
      ConsConcat(a[..n], Words(a[n..], sep), Words(b, sep));
    }
  }

  lemma AppendedSlices(a: string, e: char, b: string, n: nat)
    requires n <= |a|
    ensures a + [e] + b == a[..n] + (a[n..] + [e] + b)
    ensures (a + [e] + b)[..n] == a[..n]
    ensures (a + [e] + b)[n + 1..] == if n == |a| then b else a[n + 1..] + [e] + b
    ensures (a[n..] + [e] + b)[0] == if n == |a| then e else a[n]
  {
  }

  /** A line end between two texts separates their lines. */
  lemma {:induction false} LinesOfConcat(a: string, e: char, b: string, eol: char -> bool)
    requires eol(e)
    ensures Lines(a + [e] + b, eol) == Lines(a, eol) + Lines(b, eol)
    decreases |a|
  {
    var n, s := Run(a, eol), a + [e] + b;
    AppendedSlices(a, e, b, n);
    RunOver(a[..n], a[n..] + [e] + b, eol);
    assert |a[..n]| == n;
    assert Run(s, eol) == n && n < |s|;
    LinesUnfold(s, eol);
    LinesUnfold(a, eol);
    hide Run, Lines;
    if n < |a| {
      LinesOfConcat(a[n + 1..], e, b, eol);
      ConsConcat(a[..n], Lines(a[n + 1..], eol), Lines(b, eol));
    } else {
      assert s[..n] == a && s[n + 1..] == b;
    }
  }

  lemma ConsConcat<T>(x: T, a: seq<T>, b: seq<T>)
    ensures [x] + (a + b) == [x] + a + b
  {
  }

  lemma LinesUnfold(s: string, eol: char -> bool)
    ensures Lines(s, eol)
         == if Run(s, eol) == |s| then [s] else [s[..Run(s, eol)]] + Lines(s[Run(s, eol) + 1..], eol)
  {
    hide Run;
  }

  // ---------------------------------------------------------------- stripping and numbers

  function LeftStrip(s: string, space: char -> bool): (r: string)
    ensures |r| <= |s|
  {
    if s != [] && space(s[0]) then LeftStrip(s[1..], space) else s
  }

  function RightStrip(s: string, space: char -> bool): string {
    if s != [] && space(s[|s| - 1]) then RightStrip(s[..|s| - 1], space) else s
  }

  function Strip(s: string, space: char -> bool): string { RightStrip(LeftStrip(s, space), space) }

  predicate Blank(s: string, space: char -> bool) { forall c | c in s :: space(c) }

  predicate Solid(s: string, space: char -> bool) { s != [] && !space(s[0]) && !space(s[|s| - 1]) }

  lemma {:induction false} LeftStripBlank(b: string, s: string, space: char -> bool)
    requires Blank(b, space) && (s == [] || !space(s[0]))
    ensures LeftStrip(b + s, space) == s
  {
    if b == [] {
      assert b + s == s;
    } else {
      assert (b + s)[1..] == b[1..] + s && (b + s)[0] == b[0] && b[0] in b;
      LeftStripBlank(b[1..], s, space);
    }
  }

  lemma {:induction false} RightStripBlank(s: string, b: string, space: char -> bool)
    requires Blank(b, space) && s != [] && !space(s[|s| - 1])
    ensures RightStrip(s + b, space) == s
  {
    if b == [] {
      assert s + b == s;
    } else {
      var t, init := s + b, b[..|b| - 1];
      assert t[..|t| - 1] == s + init && t[|t| - 1] == b[|b| - 1] && b[|b| - 1] in b;
      RightStripBlank(s, init, space);
    }
  }

  lemma StripAround(indent: string, s: string, tail: string, space: char -> bool)
    requires Blank(indent, space) && Blank(tail, space) && Solid(s, space)
    ensures Strip(indent + s + tail, space) == s && LeftStrip(indent + s + tail, space) == s + tail
  {
    assert indent + s + tail == indent + (s + tail);
    LeftStripBlank(indent, s + tail, space);
    RightStripBlank(s, tail, space);
  }

  predicate Digit(c: char) { '0' <= c <= '9' }

  function Decimal(n: nat): string {
    var ds := Digits(n, 10);
    seq(|ds|, i requires 0 <= i < |ds| => '0' + ds[i] as char)
  }

  function DigitValue(c: char): nat
    requires Digit(c)
  {
    c as int - '0' as int
  }

  function DigitValues(ds: string): seq<nat>
    requires forall c | c in ds :: Digit(c)
  {
    seq(|ds|, i requires 0 <= i < |ds| => DigitValue(ds[i]))
  }

  /** `int(ds)` for a run of digits. */
  function Number(ds: string): nat
    requires forall c | c in ds :: Digit(c)
  {
    Value(DigitValues(ds), 10)
  }

  lemma DecimalReadsBack(n: nat)
    ensures Decimal(n) != [] && (forall c | c in Decimal(n) :: Digit(c)) && Number(Decimal(n)) == n
  {
    var ds, text := Digits(n, 10), Decimal(n);
    DigitsReadBack(n, 10);
    assert ds == DigitValues(text);
  }

  lemma SmallDecimal(n: nat)
    requires n < 10
    ensures Decimal(n) == ['0' + n as char]
  {
    assert Digits(n, 10) == [n];
  }

  lemma DecimalOneMore(n: nat)
    requires n >= 10
    ensures Decimal(n) == Decimal(n / 10) + ['0' + (n % 10) as char]
  {
    assert Digits(n, 10) == Digits(n / 10, 10) + [n % 10];
  }

  // ---------------------------------------------------------------- the padded substring test

  /** " w1 w2 ... wn ", and " " for no words. */
  function Padded(ws: seq<string>): string {
    if ws == [] then " " else " " + ws[0] + Padded(ws[1..])
  }

  lemma {:induction false} PaddedIsJoin(ws: seq<string>)
    requires ws != []
    ensures Padded(ws) == " " + Join(ws) + " "
  {
    var w, rest := ws[0], ws[1..];
    if rest == [] {
      assert Padded(ws) == " " + w + " ";
    } else {
      PaddedIsJoin(rest);
      var j := Join(rest);
      assert Join(ws) == w + " " + j;
      assert " " + w + (" " + j + " ") == " " + (w + " " + j) + " ";
    }
  }

  lemma {:induction false} PaddedConcat(a: seq<string>, b: seq<string>)
    ensures |Padded(a)| > 0 && |Padded(b)| > 0 && Padded(b)[0] == ' '
    ensures Padded(a + b) == Padded(a)[..|Padded(a)| - 1] + Padded(b)
  {
    if a == [] {
      assert a + b == b;
    } else {
      assert (a + b)[1..] == a[1..] + b;
      PaddedConcat(a[1..], b);
    }
  }

  predicate Plain(ws: seq<string>) { AllWords(ws, c => c == ' ') }

  lemma PaddedHead(h: seq<string>)
    requires Plain(h) && h != []
    ensures var p, k := Padded(h), |h[0]|;
      && k > 0 && |p| >= k + 2 && p[0] == ' ' && p[1 + k] == ' ' && p[1..1 + k] == h[0]
      && p[1 + k..] == Padded(h[1..]) && Plain(h[1..]) && forall i | 1 <= i <= k :: p[i] != ' '
  {
    var p, k := Padded(h), |h[0]|;
    assert Word(h[0], c => c == ' ');
    PaddedConcat([], h[1..]);
    assert p == [' '] + h[0] + Padded(h[1..]);
    forall i | 1 <= i <= k ensures p[i] != ' ' {
      assert p[i] == h[0][i - 1];
      assert h[0][i - 1] in h[0];
    }
  }

  lemma {:induction false} PaddedPrefix(n: seq<string>, h: seq<string>)
    requires Plain(n) && Plain(h) && Padded(n) <= Padded(h)
    ensures n <= h
  {
    if n != [] {
      PaddedHead(n);
      assert h != [];
      PaddedHead(h);
      hide Padded, Plain;
      var k := |n[0]|;
      assert Padded(n)[..|Padded(n)|] == Padded(h)[..|Padded(n)|];
      assert Padded(h)[1 + k] == Padded(n)[1 + k];
      assert |h[0]| == k;
      assert Padded(n)[1..1 + k] == Padded(h)[1..1 + k];
      assert Padded(n)[1 + k..] <= Padded(h)[1 + k..];
      PaddedPrefix(n[1..], h[1..]);
      PrefixCons(n, h);
    }
  }

  lemma PrefixCons(n: seq<string>, h: seq<string>)
    requires n != [] && h != [] && n[0] == h[0] && n[1..] <= h[1..]
    ensures n <= h
  {
    assert n == [n[0]] + n[1..] && h == [h[0]] + h[1..];
  }

  lemma FoundInTail<T>(h: seq<T>, n: seq<T>, k: nat, i: nat)
    requires k <= |h|
    ensures FoundAt(h[k..], n, i) <==> FoundAt(h, n, k + i)
  {
    if k + i + |n| <= |h| { assert h[k..][i..i + |n|] == h[k + i..k + i + |n|]; }
  }

  lemma {:induction false} PaddedFoundAt(n: seq<string>, h: seq<string>, i: nat)
    requires Plain(n) && Plain(h) && n != [] && FoundAt(Padded(h), Padded(n), i)
    ensures Contains(h, n)
    decreases |h|
  {
    PaddedHead(n);
    if i == 0 {
      PaddedPrefix(n, h);
      assert FoundAt(h, n, 0);
    } else {
      assert h != [];
      PaddedHead(h);
      hide Padded, Plain;
      assert Padded(h)[i..i + |Padded(n)|][0] == Padded(h)[i] == ' ';
      var skip := 1 + |h[0]|;
      assert i >= skip;
      FoundInTail(Padded(h), Padded(n), skip, i - skip);
      PaddedFoundAt(n, h[1..], i - skip);
      var j :| 0 <= j <= |h[1..]| && FoundAt(h[1..], n, j);
      FoundInTail(h, n, 1, j);
    }
  }

  lemma FoundInside(u: string, v: string, w: string)
    requires w != [] && w[0] == ' '
    ensures FoundAt(u + (v + w), v + [' '], |u|)
  {
    assert (u + (v + w))[|u|..|u| + |v| + 1] == v + [' '];
  }

  lemma PaddedFound(n: seq<string>, h: seq<string>)
    requires Contains(h, n)
    ensures Contains(Padded(h), Padded(n))
  {
    var i :| 0 <= i <= |h| && FoundAt(h, n, i);
    var a, b := h[..i], h[i + |n|..];
    SplitAround(h, n, i);
    PaddedConcat(a, n + b);
    PaddedConcat(n, b);
    PaddedEnds(n);
    hide Padded;
    var u, v := Padded(a)[..|Padded(a)| - 1], Padded(n)[..|Padded(n)| - 1];
    LastSpace(Padded(n));
    assert Padded(h) == u + (v + Padded(b)) && Padded(n) == v + [' '];
    FoundInside(u, v, Padded(b));
    hide FoundAt;
  }

  lemma SplitAround<T>(h: seq<T>, n: seq<T>, i: nat)
    requires i <= |h| && FoundAt(h, n, i)
    ensures h == h[..i] + (n + h[i + |n|..])
  {
  }

  lemma LastSpace(s: string)
    requires s != [] && s[|s| - 1] == ' '
    ensures s == s[..|s| - 1] + [' ']
  {
  }

  lemma {:induction false} PaddedEnds(ws: seq<string>)
    ensures Padded(ws) != [] && Padded(ws)[|Padded(ws)| - 1] == ' '
  {
    if ws != [] { PaddedEnds(ws[1..]); }
  }

  /** No two spaces meet in a padded list of words. */
  lemma {:induction false} NoDoubleSpace(h: seq<string>, i: nat)
    requires Plain(h) && i + 1 < |Padded(h)|
    ensures Padded(h)[i] != ' ' || Padded(h)[i + 1] != ' '
    decreases |h|
  {
    assert h != [];
    PaddedHead(h);
    hide Padded, Plain;
    var skip := 1 + |h[0]|;
    if i >= skip {
      assert Padded(h)[i] == Padded(h)[skip..][i - skip] && Padded(h)[i + 1] == Padded(h)[skip..][i + 1 - skip];
      NoDoubleSpace(h[1..], i - skip);
    }
  }

  /** The padded substring test is containment of word lists; with no words to look for it always fails. */
  lemma PaddedTestIsContainment(h: seq<string>, n: seq<string>)
    requires Plain(h) && Plain(n) && h != []
    ensures Contains(" " + Join(h) + " ", " " + Join(n) + " ") <==> n != [] && Contains(h, n)
  {
    PaddedIsJoin(h);
    if n == [] {
      assert " " + Join(n) + " " == "  ";
      if Contains(Padded(h), "  ") {
        var i :| 0 <= i <= |Padded(h)| && FoundAt(Padded(h), "  ", i);
        assert Padded(h)[i] == Padded(h)[i..i + 2][0] && Padded(h)[i + 1] == Padded(h)[i..i + 2][1];
        NoDoubleSpace(h, i);
      }
    } else {
      PaddedIsJoin(n);
      if Contains(Padded(h), Padded(n)) {
        var i :| 0 <= i <= |Padded(h)| && FoundAt(Padded(h), Padded(n), i);
        PaddedFoundAt(n, h, i);
      }
      if Contains(h, n) { PaddedFound(n, h); }
    }
  }
}
