/** SOQL literals: chained replacements as one substitution, read back by the query's own lexer and LIKE matcher. */
module Soql {
  import opened Options

  /** `s.replace(c, w)`. */
  function Replace(s: string, c: char, w: string): string {
    if s == [] then [] else (if s[0] == c then w else [s[0]]) + Replace(s[1..], c, w)
  }

  function StringLiteral(value: string): string {
    if value == "" then ""
    else Replace(Replace(Replace(value, '\\', "\\\\"), '\'', "\\'"), '"', "\\\"")
  }

  function LikePrefix(value: string): string { Replace(Replace(StringLiteral(value), '%', "\\%"), '_', "\\_") }

  const QUOTED: set<char> := {'\\', '\'', '"'}
  const LIKED: set<char> := QUOTED + {'%', '_'}

  /** One pass: a backslash before each special character. */
  function Escaped(s: string, special: set<char>): string {
    if s == [] then []
    else Escaped(s[..|s| - 1], special) + var c := s[|s| - 1]; if c in special then ['\\', c] else [c]
  }

  lemma {:induction false} ReplaceConcat(a: string, b: string, c: char, w: string)
    ensures Replace(a + b, c, w) == Replace(a, c, w) + Replace(b, c, w)
  {
    if a == [] {
      assert a + b == b;
    } else {
      assert (a + b)[1..] == a[1..] + b;
      ReplaceConcat(a[1..], b, c, w);
    }
  }

  lemma ReplaceShort(c: char, w: string, x: char, y: char)
    ensures Replace([x], c, w) == if x == c then w else [x]
    ensures Replace([x, y], c, w) == (if x == c then w else [x]) + if y == c then w else [y]
  {
    assert [x][1..] == [] && [x, y][1..] == [y] && [y][1..] == [];
  }

  /** A later pass for a new character escapes it and leaves the earlier escapes alone. */
  lemma {:induction false} OneMorePass(s: string, special: set<char>, c: char)
    requires c !in special && c != '\\'
    ensures Replace(Escaped(s, special), c, ['\\', c]) == Escaped(s, special + {c})
  {
    if s != [] {
      var init, last := s[..|s| - 1], s[|s| - 1];
      OneMorePass(init, special, c);
      ReplaceConcat(Escaped(init, special), if last in special then ['\\', last] else [last], c, ['\\', c]);
      ReplaceShort(c, ['\\', c], '\\', last);
      ReplaceShort(c, ['\\', c], last, last);
    }
  }

  lemma {:induction false} FirstPass(s: string)
    ensures Replace(s, '\\', "\\\\") == Escaped(s, {'\\'})
  {
    if s != [] {
      var init, last := s[..|s| - 1], s[|s| - 1];
      FirstPass(init);
      assert s == init + [last];
      ReplaceConcat(init, [last], '\\', "\\\\");
      ReplaceShort('\\', "\\\\", last, last);
    }
  }

  /** Three passes are one substitution; so are five. */
  lemma PassesAreOneSubstitution(value: string)
    ensures StringLiteral(value) == Escaped(value, QUOTED)
    ensures LikePrefix(value) == Escaped(value, LIKED)
  {
    FirstPass(value);
    OneMorePass(value, {'\\'}, '\'');
    OneMorePass(value, {'\\'} + {'\''}, '"');
    assert {'\\'} + {'\''} + {'"'} == QUOTED;
    OneMorePass(value, QUOTED, '%');
    OneMorePass(value, QUOTED + {'%'}, '_');
    assert QUOTED + {'%'} + {'_'} == LIKED;
  }

  /** At most doubled, by one for each special character. */
  lemma {:induction false} LengthAtMostDoubles(s: string, special: set<char>)
    ensures |s| <= |Escaped(s, special)| <= 2 * |s|
    ensures |Escaped(s, special)| == |s| <==> forall c | c in s :: c !in special
  {
    if s != [] {
      LengthAtMostDoubles(s[..|s| - 1], special);
      assert s == s[..|s| - 1] + [s[|s| - 1]];
    }
  }

  // ---------------------------------------------------------------- runs of backslashes

  /** Length of the run of backslashes that ends `t`. */
  function TrailingRun(t: string): nat {
    if t == [] || t[|t| - 1] != '\\' then 0 else 1 + TrailingRun(t[..|t| - 1])
  }

  lemma {:induction false} EvenTail(s: string, special: set<char>)
    requires '\\' in special
    ensures TrailingRun(Escaped(s, special)) % 2 == 0
  {
    if s != [] {
      var e, last := Escaped(s[..|s| - 1], special), s[|s| - 1];
      EvenTail(s[..|s| - 1], special);
      if last == '\\' {
        var t := e + ['\\', '\\'];
        assert t[..|t| - 1] == e + ['\\'] && (e + ['\\'])[..|e|] == e;
      }
    }
  }

  /** Every special character other than the backslash follows an odd run of backslashes. */
  lemma {:induction false} SpecialFollowsOddRun(s: string, special: set<char>, i: nat)
    requires '\\' in special && i < |Escaped(s, special)| && Escaped(s, special)[i] in special - {'\\'}
    ensures TrailingRun(Escaped(s, special)[..i]) % 2 == 1
  {
    var t, e, last := Escaped(s, special), Escaped(s[..|s| - 1], special), s[|s| - 1];
    if i < |e| {
      assert t[..i] == e[..i];
      SpecialFollowsOddRun(s[..|s| - 1], special, i);
    } else {
      EvenTail(s[..|s| - 1], special);
      assert t[..i] == e + ['\\'] && (e + ['\\'])[..|e|] == e;
    }
  }

  // ---------------------------------------------------------------- the reader's side

  /** The lexer inside a quoted string: up to the closing quote, taking a backslash with a special character as
      that character; any other escape is not one these functions write. */
  function ReadQuoted(t: string, special: set<char>): Option<(string, string)> {
    if t == [] then None
    else if t[0] == '\'' then Some(("", t[1..]))
    else if t[0] != '\\' then Taken(t[0], ReadQuoted(t[1..], special))
    else if |t| >= 2 && t[1] in special then Taken(t[1], ReadQuoted(t[2..], special))
    else None
  }

  function Taken(c: char, r: Option<(string, string)>): Option<(string, string)> {
    if r.None? then None else Some(([c] + r.value.0, r.value.1))
  }

  /** The first character's escape comes first. */
  lemma {:induction false} EscapedFromFront(c: char, s: string, special: set<char>)
    ensures Escaped([c] + s, special) == (if c in special then ['\\', c] else [c]) + Escaped(s, special)
  {
    var t := [c] + s;
    if s == [] {
      assert t[..0] == [];
    } else {
      assert t[..|t| - 1] == [c] + s[..|s| - 1];
      EscapedFromFront(c, s[..|s| - 1], special);
    }
  }

  function Preceded(s: string, r: Option<(string, string)>): Option<(string, string)> {
    if r.None? then None else Some((s + r.value.0, r.value.1))
  }

  /** The lexer turns an escaped value into the value, whatever text follows. */
  lemma {:induction false} EscapedReadsBack(s: string, special: set<char>, t: string)
    requires {'\\', '\''} <= special
    ensures ReadQuoted(Escaped(s, special) + t, special) == Preceded(s, ReadQuoted(t, special))
  {
    if s == [] {
      assert Escaped(s, special) + t == t;
      var r := ReadQuoted(t, special);
      if r.Some? { assert s + r.value.0 == r.value.0; }
    } else {
      hide Escaped, ReadQuoted;
      var c, e := s[0], Escaped(s[1..], special);
      EscapedReadsBack(s[1..], special, t);
      assert s == [c] + s[1..];
      EscapedFromFront(c, s[1..], special);
      var piece := if c in special then ['\\', c] else [c];
      assert piece + e + t == piece + (e + t);
      PieceReadsBack(c, special, e + t);
      var r := ReadQuoted(t, special);
      TakenThenPreceded(c, s[1..], r);
    }
  }

  lemma TakenThenPreceded(c: char, s: string, r: Option<(string, string)>)
    ensures Taken(c, Preceded(s, r)) == Preceded([c] + s, r)
  {
    if r.Some? { assert [c] + (s + r.value.0) == [c] + s + r.value.0; }
  }

  lemma PieceReadsBack(c: char, special: set<char>, tail: string)
    requires {'\\', '\''} <= special
    ensures ReadQuoted((if c in special then ['\\', c] else [c]) + tail, special) == Taken(c, ReadQuoted(tail, special))
  {
    if c in special {
      assert (['\\', c] + tail)[2..] == tail;
    } else {
      assert ([c] + tail)[1..] == tail;
      assert c != '\\' && c != '\'';
    }
  }

  /** The literal preserves the exact characters of the input, for every string and every rest of the query;
      so does the prefix, with its wildcard. */
  lemma LiteralReadsBack(value: string, rest: string)
    ensures ReadQuoted(StringLiteral(value) + ("'" + rest), QUOTED) == Some((value, rest))
    ensures ReadQuoted(LikePrefix(value) + ("%'" + rest), LIKED) == Some((value + "%", rest))
  {
    PassesAreOneSubstitution(value);
    var quote := "'" + rest;
    assert quote[1..] == rest;
    EscapedReadsBack(value, QUOTED, quote);
    assert ReadQuoted(quote, QUOTED) == Some(("", rest));
    assert value + "" == value;
    EscapedReadsBack(value, LIKED, "%'" + rest);
    assert ("%'" + rest)[1..] == quote;
    assert ReadQuoted(quote, LIKED) == Some(("", rest));
    assert ['%'] + "" == "%";
    assert ReadQuoted("%'" + rest, LIKED) == Taken('%', ReadQuoted(quote, LIKED)) by {
      assert "%'" + rest == "%" + quote;
    }
  }

  /** `text LIKE pattern`. */
  ghost predicate Like(text: string, pattern: string)
    decreases |pattern|
  {
    if pattern == [] then text == []
    else if pattern[0] == '%' then exists k | 0 <= k <= |text| :: Like(text[k..], pattern[1..])
    else if text == [] then false
    else if pattern[0] == '_' then Like(text[1..], pattern[1..])
    else if pattern[0] == '\\' then |pattern| >= 2 && text[0] == pattern[1] && Like(text[1..], pattern[2..])
    else text[0] == pattern[0] && Like(text[1..], pattern[1..])
  }

  lemma PieceMatches(text: string, c: char, tail: string)
    ensures Like(text, (if c in LIKED then ['\\', c] else [c]) + tail)
       <==> text != [] && text[0] == c && Like(text[1..], tail)
  {
    if c in LIKED {
      assert (['\\', c] + tail)[2..] == tail;
    } else {
      assert ([c] + tail)[1..] == tail;
      assert c != '\\' && c != '%' && c != '_';
    }
  }

  lemma PrefixStep(text: string, s: string)
    requires text != [] && s != []
    ensures s <= text <==> text[0] == s[0] && s[1..] <= text[1..]
    ensures s <= text ==> text[1..][|s| - 1..] == text[|s|..]
  {
    assert text == [text[0]] + text[1..] && s == [s[0]] + s[1..];
  }

  lemma {:induction false} EscapedMatchesItself(text: string, s: string, pattern: string)
    ensures Like(text, Escaped(s, LIKED) + pattern) <==> s <= text && Like(text[|s|..], pattern)
  {
    if s == [] {
      assert Escaped(s, LIKED) + pattern == pattern && text[0..] == text;
    } else {
      var c, e := s[0], Escaped(s[1..], LIKED);
      assert s == [c] + s[1..];
      EscapedFromFront(c, s[1..], LIKED);
      hide Escaped, Like;
      var piece := if c in LIKED then ['\\', c] else [c];
      assert piece + e + pattern == piece + (e + pattern);
      PieceMatches(text, c, e + pattern);
      if text != [] {
        EscapedMatchesItself(text[1..], s[1..], pattern);
        PrefixStep(text, s);
      }
    }
  }

  /** `LIKE '<prefix>%'` matches exactly the texts that start with the value. */
  lemma LikePrefixMatchesLiteralStart(text: string, value: string)
    ensures Like(text, LikePrefix(value) + "%") <==> value <= text
  {
    PassesAreOneSubstitution(value);
    EscapedMatchesItself(text, value, "%");
    if value <= text {
      var rest := text[|value|..];
      assert "%"[1..] == [] && rest[|rest|..] == [];
      assert Like(rest[|rest|..], "%"[1..]);
    }
  }
}
