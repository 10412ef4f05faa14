/** Attribution of a commitment to a source note: one passage must carry owner, due date and commitment. */
module Attribution {
  import opened Options
  import opened Text

  /** The character classes Python supplies; case folding maps one character to a string. */
  datatype Alphabet = Alphabet(
    fold: char -> string, word: char -> bool, space: char -> bool, eol: char -> bool, digit: char -> bool)

  ghost predicate Proper(abc: Alphabet) { abc.space(' ') && forall c | abc.word(c) :: !abc.space(c) }

  function Folded(s: string, abc: Alphabet): string {
    if s == [] then [] else abc.fold(s[0]) + Folded(s[1..], abc)
  }

  /** Everything that is neither a word character nor a space becomes a space. */
  function Substituted(s: string, abc: Alphabet): string {
    seq(|s|, i requires 0 <= i < |s| => if abc.word(s[i]) || abc.space(s[i]) then s[i] else ' ')
  }

  function Tokens(s: string, abc: Alphabet): seq<string> { Words(Substituted(Folded(s, abc), abc), abc.space) }

  function NormalizeText(s: string, abc: Alphabet): string { Join(Tokens(s, abc)) }

  lemma TokensArePlain(s: string, abc: Alphabet)
    requires Proper(abc)
    ensures AllWords(Tokens(s, abc), abc.space) && Plain(Tokens(s, abc))
    ensures Words(NormalizeText(s, abc), abc.space) == Tokens(s, abc)
  {
    WordsAreWords(Substituted(Folded(s, abc), abc), abc.space);
    WordsOfJoin(Tokens(s, abc), abc.space);
    forall w | w in Tokens(s, abc) ensures Word(w, c => c == ' ') { assert Word(w, abc.space); }
  }

  // ---------------------------------------------------------------- dates and terms

  /** An ISO date, with the numbers read off it. */
  datatype Date = Date(iso: string, year: nat, month: nat, day: nat)

  const MONTHS := ["january", "february", "march", "april", "may", "june", "july", "august", "september", "october",
                   "november", "december"]

  function TwoDigits(n: nat): string { if n < 10 then "0" + Decimal(n) else Decimal(n) }

  /** The spellings looked for, before normalization. */
  function DateForms(d: Date): set<string> {
    if d.month < 1 || d.month > 12 then {d.iso}
    else
      var name, day, year, month := MONTHS[d.month - 1], Decimal(d.day), Decimal(d.year), Decimal(d.month);
      var short := name[..3];
      {d.iso, month + "/" + day + "/" + year, TwoDigits(d.month) + "/" + TwoDigits(d.day) + "/" + year,
       day + "/" + month + "/" + year,
       name + " " + day, name + " " + day + " " + year, day + " " + name, day + " " + name + " " + year,
       short + " " + day, short + " " + day + " " + year, day + " " + short, day + " " + short + " " + year}
  }

  function DateRenderings(d: Date, abc: Alphabet): set<string> { set f | f in DateForms(d) :: NormalizeText(f, abc) }

  const STOPWORDS := {"the", "and", "for", "with", "will", "our", "their", "them", "this", "that", "from", "into",
                      "about", "over", "before", "after", "should", "would", "could", "must", "need", "needs",
                      "customer", "airbyte", "team", "please"}

  function CommitmentTerms(commitment: string, abc: Alphabet): set<string> {
    set t | t in Tokens(commitment, abc) && |t| >= 3 && t !in STOPWORDS && exists c | c in t :: !abc.digit(c)
  }

  // ---------------------------------------------------------------- passages

  /** A heading or metadata line never contributes. */
  predicate Ignored(raw: string, abc: Alphabet) {
    var line := Strip(raw, abc.space);
    line == [] || "#" <= line || "Occurred:" <= line || "Attendees:" <= line
  }

  /** Without a leading "[speaker]" label of one to eighty characters. */
  function WithoutSpeaker(line: string, abc: Alphabet): string {
    if line == [] || line[0] != '[' then line
    else
      var n := Run(line[1..], c => c == ']');
      if 1 <= n <= 80 && n + 1 < |line| then LeftStrip(line[n + 2..], abc.space) else line
  }

  /** Where the first sentence ends: after a terminator, before a space. */
  function SentenceEnd(s: string, space: char -> bool): (n: nat)
    ensures n <= |s| && (s != [] ==> n > 0)
  {
    if |s| < 2 then |s|
    else if s[0] in ".!?;" && space(s[1]) then 1
    else 1 + SentenceEnd(s[1..], space)
  }

  function Sentences(s: string, space: char -> bool): seq<string>
    decreases |s|
  {
    var n := SentenceEnd(s, space);
    if n == |s| then [s] else [s[..n]] + Sentences(LeftStrip(s[n..], space), space)
  }

  function NonEmpty(ss: seq<string>, abc: Alphabet): seq<string> {
    if ss == [] then []
    else
      var n := NormalizeText(ss[|ss| - 1], abc);
      NonEmpty(ss[..|ss| - 1], abc) + if n == [] then [] else [n]
  }

  function LinePassages(raw: string, abc: Alphabet): seq<string> {
    if Ignored(raw, abc) then []
    else NonEmpty(Sentences(WithoutSpeaker(Strip(raw, abc.space), abc), abc.space), abc)
  }

  function Passages(lines: seq<string>, abc: Alphabet): seq<string> {
    if lines == [] then [] else Passages(lines[..|lines| - 1], abc) + LinePassages(lines[|lines| - 1], abc)
  }

  method SourcePassages(text: string, abc: Alphabet) returns (passages: seq<string>)
    ensures passages == Passages(Lines(text, abc.eol), abc)
  {
    hide NormalizeText, Ignored, Sentences, WithoutSpeaker, Strip, Lines;
    passages := [];
    var lines, i := Lines(text, abc.eol), 0;
    while i < |lines|
      invariant 0 <= i <= |lines| && passages == Passages(lines[..i], abc)
    {
      var raw := lines[i];
      assert lines[..i + 1][..i] == lines[..i];
      i := i + 1;
      if Ignored(raw, abc) { continue; }
      var sentences, j := Sentences(WithoutSpeaker(Strip(raw, abc.space), abc), abc.space), 0;
      while j < |sentences|
        invariant 0 <= j <= |sentences|
        invariant passages == Passages(lines[..i - 1], abc) + NonEmpty(sentences[..j], abc)
      {
        var normalized := NormalizeText(sentences[j], abc);
        assert sentences[..j + 1][..j] == sentences[..j];
        if normalized != [] { passages := passages + [normalized]; }
        j := j + 1;
      }
      assert sentences[..j] == sentences;
    }
    assert lines[..i] == lines;
  }

  lemma {:induction false} NonEmptyAreNormal(ss: seq<string>, abc: Alphabet, p: string)
    requires Proper(abc) && p in NonEmpty(ss, abc)
    ensures Normal(p, abc)
  {
    var last := ss[|ss| - 1];
    if p in NonEmpty(ss[..|ss| - 1], abc) {
      NonEmptyAreNormal(ss[..|ss| - 1], abc, p);
    } else {
      TokensArePlain(last, abc);
    }
  }

  /** A passage is the joining of its own, non-empty, list of words. */
  predicate Normal(p: string, abc: Alphabet) {
    var ws := Words(p, abc.space); p == Join(ws) && ws != [] && Plain(ws)
  }

  lemma {:induction false} PassagesAreNormal(lines: seq<string>, abc: Alphabet, p: string)
    requires Proper(abc) && p in Passages(lines, abc)
    ensures Normal(p, abc)
  {
    if p in Passages(lines[..|lines| - 1], abc) {
      PassagesAreNormal(lines[..|lines| - 1], abc, p);
    } else {
      var line := Strip(lines[|lines| - 1], abc.space);
      NonEmptyAreNormal(Sentences(WithoutSpeaker(line, abc), abc.space), abc, p);
    }
  }

  // ---------------------------------------------------------------- the verdict

  datatype Verdict = ModelOnly | SourceVerified

  /** The words hold a non-empty list of words, contiguously. */
  predicate Holds(words: seq<string>, sought: seq<string>) { sought != [] && Contains(words, sought) }

  predicate HoldsDate(words: seq<string>, d: Date, abc: Alphabet) {
    exists f | f in DateForms(d) :: Holds(words, Tokens(f, abc))
  }

  /** One passage carries all three: owner and some date spelling contiguously, and every term of the commitment. */
  predicate Carries(words: seq<string>, owner: string, d: Date, terms: set<string>, abc: Alphabet) {
    Holds(words, Tokens(owner, abc)) && HoldsDate(words, d, abc) && forall t | t in terms :: t in words
  }

  predicate Attributed(text: string, owner: Option<string>, due: Option<Date>, commitment: Option<string>,
    abc: Alphabet) {
    && owner.Some? && due.Some?
    && (commitment.Some? ==> CommitmentTerms(commitment.value, abc) != {})
    && var terms := if commitment.Some? then CommitmentTerms(commitment.value, abc) else {};
       exists p | p in Passages(Lines(text, abc.eol), abc) ::
         Carries(Words(p, abc.space), owner.value, due.value, terms, abc)
  }

  function Spaced(s: string): string { " " + s + " " }

  lemma SpacedTest(p: string, s: string, abc: Alphabet)
    requires Proper(abc) && Normal(p, abc)
    ensures Contains(Spaced(p), Spaced(NormalizeText(s, abc))) <==> Holds(Words(p, abc.space), Tokens(s, abc))
  {
    TokensArePlain(s, abc);
    PaddedTestIsContainment(Words(p, abc.space), Tokens(s, abc));
  }

  predicate MentionsDate(p: string, d: Date, abc: Alphabet) {
    exists form | form in DateRenderings(d, abc) :: Contains(Spaced(p), Spaced(form))
  }

  lemma DateTest(p: string, d: Date, abc: Alphabet)
    requires Proper(abc) && Normal(p, abc)
    ensures MentionsDate(p, d, abc) <==> HoldsDate(Words(p, abc.space), d, abc)
  {
    forall f | f in DateForms(d)
      ensures Contains(Spaced(p), Spaced(NormalizeText(f, abc))) <==> Holds(Words(p, abc.space), Tokens(f, abc))
    {
      SpacedTest(p, f, abc);
    }
    if f :| f in DateForms(d) && Holds(Words(p, abc.space), Tokens(f, abc)) {
      assert NormalizeText(f, abc) in DateRenderings(d, abc);
    }
  }

  lemma NoOwnerNoVerdict(text: string, due: Option<Date>, commitment: Option<string>, abc: Alphabet)
    ensures !Attributed(text, Some(""), due, commitment, abc)
  {
    assert Folded("", abc) == "" && Tokens("", abc) == [];
  }

  /** The three tests the code makes of a passage say in words what `Carries` says. */
  lemma PassageTest(lines: seq<string>, p: string, owner: string, d: Date, terms: set<string>, abc: Alphabet)
    requires Proper(abc) && p in Passages(lines, abc)
    ensures Carries(Words(p, abc.space), owner, d, terms, abc)
       <==> Contains(Spaced(p), Spaced(NormalizeText(owner, abc))) && MentionsDate(p, d, abc)
            && terms <= set w | w in Words(p, abc.space)
  {
    hide Holds, HoldsDate, Contains, MentionsDate, Passages, NormalizeText, Tokens, Proper;
    PassagesAreNormal(lines, abc, p);
    SpacedTest(p, owner, abc);
    DateTest(p, d, abc);
    var words := Words(p, abc.space);
    assert (terms <= set w | w in words) <==> forall t | t in terms :: t in words;
  }

  /** `verify_attribution`: padded substring tests decide what `Attributed` says in words. */
  method VerifyAttribution(text: string, owner: Option<string>, due: Option<Date>, commitment: Option<string>,
    abc: Alphabet)
    returns (verdict: Verdict)
    requires Proper(abc)
    ensures verdict == SourceVerified <==> Attributed(text, owner, due, commitment, abc)
  {
    hide Carries, Contains, MentionsDate, Passages, Lines, Words, NormalizeText, Tokens, CommitmentTerms, Proper,
      Spaced;
    if owner.None? || owner.value == "" || due.None? {
      if owner == Some("") { NoOwnerNoVerdict(text, due, commitment, abc); }
      return ModelOnly;
    }
    var ownerNorm := Spaced(NormalizeText(owner.value, abc));
    var terms := if commitment.Some? then CommitmentTerms(commitment.value, abc) else {};
    if commitment.Some? && terms == {} {
      return ModelOnly;
    }
    var passages := SourcePassages(text, abc);
    var i := 0;
    while i < |passages|
      invariant 0 <= i <= |passages|
      invariant forall j | 0 <= j < i :: !Carries(Words(passages[j], abc.space), owner.value, due.value, terms, abc)
    {
      var passage := passages[i];
      PassageTest(Lines(text, abc.eol), passage, owner.value, due.value, terms, abc);
      i := i + 1;
      if !Contains(Spaced(passage), ownerNorm) || !MentionsDate(passage, due.value, abc) { continue; }
      var words := set w | w in Words(passage, abc.space);
      if terms <= words {
        return SourceVerified;
      }
    }
    return ModelOnly;
  }

  // ---------------------------------------------------------------- what cannot change the verdict

  lemma {:induction false} PassagesOfConcat(a: seq<string>, b: seq<string>, abc: Alphabet)
    ensures Passages(a + b, abc) == Passages(a, abc) + Passages(b, abc)
  {
    hide LinePassages;
    if b == [] {
      assert a + b == a;
    } else {
      var init, last := b[..|b| - 1], LinePassages(b[|b| - 1], abc);
      assert (a + b)[..|a + b| - 1] == a + init && (a + b)[|a + b| - 1] == b[|b| - 1];
      PassagesOfConcat(a, init, abc);
      assert Passages(a + b, abc) == Passages(a + init, abc) + last;
      assert Passages(b, abc) == Passages(init, abc) + last;
    }
  }

  /** Appending lines never revokes an attribution. */
  lemma AppendingNeverRevokes(text: string, e: char, more: string, owner: Option<string>, due: Option<Date>,
                              commitment: Option<string>, abc: Alphabet)
    requires abc.eol(e) && Attributed(text, owner, due, commitment, abc)
    ensures Attributed(text + [e] + more, owner, due, commitment, abc)
  {
    LinesOfConcat(text, e, more, abc.eol);
    PassagesOfConcat(Lines(text, abc.eol), Lines(more, abc.eol), abc);
  }

  lemma OneLine(line: string, abc: Alphabet)
    requires forall c | c in line :: !abc.eol(c)
    ensures Lines(line, abc.eol) == [line]
  {
    RunOver(line, [], abc.eol);
    assert line + [] == line;
  }

  /** A heading, "Occurred:" or "Attendees:" line anywhere never affects the verdict. */
  lemma IgnoredLinesNeverMatter(before: string, e: char, line: string, after: string, owner: Option<string>,
    due: Option<Date>,
                                commitment: Option<string>, abc: Alphabet)
    requires abc.eol(e) && Ignored(line, abc) && forall c | c in line :: !abc.eol(c)
    ensures Attributed(before + [e] + (line + [e] + after), owner, due, commitment, abc)
       <==> Attributed(before + [e] + after, owner, due, commitment, abc)
  {
    var eol := abc.eol;
    LinesOfConcat(before, e, line + [e] + after, eol);
    LinesOfConcat(line, e, after, eol);
    LinesOfConcat(before, e, after, eol);
    OneLine(line, abc);
    PassagesOfConcat(Lines(before, eol), Lines(after, eol), abc);
    PassagesOfConcat(Lines(before, eol), [line] + Lines(after, eol), abc);
    PassagesOfConcat([line], Lines(after, eol), abc);
    assert Passages([line], abc) == [] by { assert [line][..0] == []; }
    assert Passages([line] + Lines(after, eol), abc) == Passages(Lines(after, eol), abc);
  }
}
