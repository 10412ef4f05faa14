/** What the text steps of attribution do to a note, line by line, as notes are written. */
module NotePassages {
  import opened Attribution
  import opened Numerals
  import opened Options
  import opened Text

  // ---------------------------------------------------------------- tokens

  /** Folding goes character by character. */
  lemma {:induction false} FoldedOfConcat(a: string, b: string, abc: Alphabet)
    ensures Folded(a + b, abc) == Folded(a, abc) + Folded(b, abc)
  {
    if a == [] {
      assert a + b == b;
    } else {
      assert (a + b)[1..] == a[1..] + b;
      FoldedOfConcat(a[1..], b, abc);
    }
  }

  lemma FoldedOne(c: char, abc: Alphabet)
    ensures Folded([c], abc) == abc.fold(c)
  {
    assert [c][1..] == [];
  }

  lemma SubstitutedOfConcat(a: string, b: string, abc: Alphabet)
    ensures Substituted(a + b, abc) == Substituted(a, abc) + Substituted(b, abc)
  {
  }

  /** A character that folds to anything but a word character separates tokens, wherever it stands. */
  lemma SeparatorSplits(a: string, c: char, b: string, abc: Alphabet)
    requires Proper(abc) && |abc.fold(c)| == 1 && !abc.word(abc.fold(c)[0])
    ensures Tokens(a + [c] + b, abc) == Tokens(a, abc) + Tokens(b, abc)
  {
    FoldedOfConcat(a + [c], b, abc);
    FoldedOfConcat(a, [c], abc);
    FoldedOne(c, abc);
    var x, f, y := Folded(a, abc), abc.fold(c), Folded(b, abc);
    SubstitutedOfConcat(x + f, y, abc);
    SubstitutedOfConcat(x, f, abc);
    var gap := Substituted(f, abc);
    assert gap == [gap[0]] && abc.space(gap[0]);
    hide Folded, Substituted, Words;
    WordsOfConcat(Substituted(x, abc), gap[0], Substituted(y, abc), abc.space);
  }

  /** A run of characters that fold to word characters is one token, its folding. */
  lemma WordIsOneToken(w: string, abc: Alphabet)
    requires Proper(abc) && Folded(w, abc) != [] && forall c | c in Folded(w, abc) :: abc.word(c)
    ensures Tokens(w, abc) == [Folded(w, abc)]
  {
    var f := Folded(w, abc);
    forall i | 0 <= i < |f| ensures abc.word(f[i]) && !abc.space(f[i]) { assert f[i] in f; }
    assert Substituted(f, abc) == f;
    OneRunOneWord(f, abc.space);
  }

  lemma OneRunOneWord(f: string, space: char -> bool)
    requires f != [] && forall i | 0 <= i < |f| :: !space(f[i])
    ensures Words(f, space) == [f]
  {
    RunOver(f, [], space);
    assert f + [] == f && f[..|f|] == f && f[|f|..] == [];
    assert Words([], space) == [];
  }

  // ---------------------------------------------------------------- sentences

  /** A terminator before a space. */
  predicate SplitsAt(s: string, i: nat, space: char -> bool) { i + 1 < |s| && s[i] in ".!?;" && space(s[i + 1]) }

  lemma {:induction false} SentenceEndAt(s: string, k: nat, space: char -> bool)
    requires SplitsAt(s, k, space) && forall i: nat | i < k :: !SplitsAt(s, i, space)
    ensures SentenceEnd(s, space) == k + 1
  {
    if k > 0 {
      assert !SplitsAt(s, 0, space);
      forall i: nat | i < k - 1 ensures !SplitsAt(s[1..], i, space) { assert !SplitsAt(s, i + 1, space); }
      SentenceEndAt(s[1..], k - 1, space);
    }
  }

  lemma {:induction false} SentenceEndsNowhere(s: string, space: char -> bool)
    requires forall i: nat :: !SplitsAt(s, i, space)
    ensures SentenceEnd(s, space) == |s|
  {
    if |s| >= 2 {
      assert !SplitsAt(s, 0, space);
      forall i: nat ensures !SplitsAt(s[1..], i, space) { assert !SplitsAt(s, i + 1, space); }
      SentenceEndsNowhere(s[1..], space);
    }
  }

  /** Without a terminator before a space it is one sentence. */
  lemma OneSentence(s: string, space: char -> bool)
    requires forall i: nat :: !SplitsAt(s, i, space)
    ensures Sentences(s, space) == [s]
  {
    SentenceEndsNowhere(s, space);
  }

  /** The first terminator before a space ends the first sentence; the spaces after it belong to neither. */
  lemma FirstSentence(a: string, t: char, gap: string, b: string, space: char -> bool)
    requires t in ".!?;" && gap != [] && Blank(gap, space) && (b == [] || !space(b[0]))
    requires forall i: nat | i < |a| :: !SplitsAt(a + [t], i, space)
    ensures Sentences(a + [t] + gap + b, space) == [a + [t]] + Sentences(b, space)
  {
    hide SentenceEnd, SplitsAt, Sentences, LeftStrip;
    var s := a + [t] + gap + b;
    SplitsThere(a, t, gap, b, space);
    SentenceEndAt(s, |a|, space);
    SentencesUnfold(s, space);
    AroundFirst(a, t, gap, b);
    LeftStripBlank(gap, b, space);
  }

  lemma SentencesUnfold(s: string, space: char -> bool)
    ensures var n := SentenceEnd(s, space);
            n < |s| ==> Sentences(s, space) == [s[..n]] + Sentences(LeftStrip(s[n..], space), space)
  {
    hide SentenceEnd, LeftStrip;
  }

  lemma AroundFirst(a: string, t: char, gap: string, b: string)
    ensures var s := a + [t] + gap + b; s[..|a| + 1] == a + [t] && s[|a| + 1..] == gap + b
  {
  }

  lemma SplitsThere(a: string, t: char, gap: string, b: string, space: char -> bool)
    requires t in ".!?;" && gap != [] && Blank(gap, space)
    requires forall i: nat | i < |a| :: !SplitsAt(a + [t], i, space)
    ensures var s := a + [t] + gap + b;
            SplitsAt(s, |a|, space) && forall i: nat | i < |a| :: !SplitsAt(s, i, space)
  {
    var s := a + [t] + gap + b;
    assert gap[0] in gap && s[|a|] == t && s[|a| + 1] == gap[0];
    forall i: nat | i < |a| ensures !SplitsAt(s, i, space) {
      assert !SplitsAt(a + [t], i, space) && s[i] == (a + [t])[i] && s[i + 1] == (a + [t])[i + 1];
    }
  }

  // ---------------------------------------------------------------- lines

  /** A "[speaker]" label of one to eighty characters goes, with the spaces after it. */
  lemma SpeakerIsDropped(speaker: string, gap: string, rest: string, abc: Alphabet)
    requires 1 <= |speaker| <= 80 && ']' !in speaker && Blank(gap, abc.space) && (rest == [] || !abc.space(rest[0]))
    ensures WithoutSpeaker("[" + speaker + "]" + gap + rest, abc) == rest
  {
    var line := "[" + speaker + "]" + gap + rest;
    var closing := c => c == ']';
    assert line[1..] == speaker + ("]" + gap + rest);
    RunOver(speaker, "]" + gap + rest, closing);
    assert line[|speaker| + 2..] == gap + rest;
    LeftStripBlank(gap, rest, abc.space);
  }

  /** A label of `n` characters ends here. */
  predicate LabelEnds(line: string, n: nat) { n + 1 < |line| && line[n + 1] == ']' && ']' !in line[1..n + 1] }

  /** The line begins with a label of that kind. */
  predicate Labelled(line: string) { line != [] && line[0] == '[' && exists n | 1 <= n <= 80 :: LabelEnds(line, n) }

  lemma LabelledByRun(line: string)
    requires line != [] && line[0] == '['
    ensures var n := Run(line[1..], c => c == ']'); 1 <= n <= 80 && n + 1 < |line| ==> Labelled(line)
  {
    var n := Run(line[1..], c => c == ']');
    if 1 <= n <= 80 && n + 1 < |line| {
      assert line[n + 1] == line[1..][n];
      forall i | 1 <= i < n + 1 ensures line[i] != ']' { assert line[i] == line[1..][i - 1]; }
      assert LabelEnds(line, n);
    }
  }

  lemma OtherLinesStay(line: string, abc: Alphabet)
    requires !Labelled(line)
    ensures WithoutSpeaker(line, abc) == line
  {
    if line != [] && line[0] == '[' { LabelledByRun(line); }
  }

  /** Headings, "Occurred:" and "Attendees:" lines are ignored, however they are indented, and no other line with text
      is. */
  lemma IgnoredExactlyWhen(indent: string, text: string, tail: string, abc: Alphabet)
    requires Blank(indent, abc.space) && Blank(tail, abc.space) && Solid(text, abc.space)
    ensures Ignored(indent + text + tail, abc) <==> text[0] == '#' || "Occurred:" <= text || "Attendees:" <= text
  {
    StripAround(indent, text, tail, abc.space);
    hide Strip, LeftStrip;
  }

  lemma BlankLineIsIgnored(line: string, abc: Alphabet)
    requires Blank(line, abc.space)
    ensures Ignored(line, abc)
  {
    assert line + [] == line;
    LeftStripBlank(line, [], abc.space);
  }

  /** A spoken line of two sentences supplies exactly those two, without speaker and spacing. */
  lemma SpokenLine(indent: string, speaker: string, gap: string, a: string, t: char, between: string, b: string,
      tail: string, abc: Alphabet)
    requires Proper(abc) && !abc.space('[')
    requires Blank(indent, abc.space) && Blank(gap, abc.space) && Blank(tail, abc.space)
    requires 1 <= |speaker| <= 80 && ']' !in speaker
    requires Solid(a, abc.space) && Solid(b, abc.space) && t in ".!?;" && between != [] && Blank(between, abc.space)
    requires forall i: nat | i < |a| :: !SplitsAt(a + [t], i, abc.space)
    requires forall i: nat :: !SplitsAt(b, i, abc.space)
    ensures LinePassages(indent + ("[" + speaker + "]" + gap + (a + [t] + between + b)) + tail, abc)
         == NonEmpty([a + [t], b], abc)
  {
    var rest := a + [t] + between + b;
    var text := "[" + speaker + "]" + gap + rest;
    assert rest[0] == a[0] && rest[|rest| - 1] == b[|b| - 1];
    assert text[0] == '[' && text[|text| - 1] == rest[|rest| - 1];
    assert !("Occurred:" <= text) && !("Attendees:" <= text) by {
      assert text[0] != "Occurred:"[0] && text[0] != "Attendees:"[0];
    }
    IgnoredExactlyWhen(indent, text, tail, abc);
    StripAround(indent, text, tail, abc.space);
    SpeakerIsDropped(speaker, gap, rest, abc);
    FirstSentence(a, t, between, b, abc.space);
    OneSentence(b, abc.space);
    hide Ignored, Strip, LeftStrip, WithoutSpeaker, Sentences, NonEmpty;
    assert [a + [t]] + [b] == [a + [t], b];
  }

  // ---------------------------------------------------------------- dates and terms

  /** Two digits up to 99. */
  lemma TwoDigitsSay(n: nat)
    requires n < 100
    ensures TwoDigits(n) == ['0' + (n / 10) as char, '0' + (n % 10) as char]
  {
    assert Digits(n / 10, 10) == [n / 10];
    assert n >= 10 ==> Digits(n, 10) == [n / 10] + [n % 10];
    assert n < 10 ==> Digits(n, 10) == [n];
  }

  lemma Year2026()
    ensures Decimal(2026) == "2026"
  {
    SmallDecimal(2);
    DecimalOneMore(20);
    DecimalOneMore(202);
    DecimalOneMore(2026);
  }

  /** The spellings of the fifth of September 2026. */
  lemma FifthOfSeptember()
    ensures DateForms(Date("2026-09-05", 2026, 9, 5))
         == {"2026-09-05", "9/5/2026", "09/05/2026", "5/9/2026",
             "september 5", "september 5 2026", "5 september", "5 september 2026",
             "sep 5", "sep 5 2026", "5 sep", "5 sep 2026"}
  {
    Year2026();
    SmallDecimal(9);
    SmallDecimal(5);
    assert MONTHS[8] == "september" && "september"[..3] == "sep";
    assert TwoDigits(9) == "09" && TwoDigits(5) == "05";
    hide Decimal, TwoDigits;
    assert "9" + "/" + "5" + "/" + "2026" == "9/5/2026" && "5" + "/" + "9" + "/" + "2026" == "5/9/2026";
    assert "09" + "/" + "05" + "/" + "2026" == "09/05/2026";
    assert "september" + " " + "5" == "september 5" && "5" + " " + "september" == "5 september";
    assert "september" + " " + "5" + " " + "2026" == "september 5 2026";
    assert "5" + " " + "september" + " " + "2026" == "5 september 2026";
    assert "sep" + " " + "5" == "sep 5" && "5" + " " + "sep" == "5 sep";
    assert "sep" + " " + "5" + " " + "2026" == "sep 5 2026" && "5" + " " + "sep" + " " + "2026" == "5 sep 2026";
  }

  /** Short words, stopwords and numbers cannot stand for a commitment. */
  predicate TooPlain(t: string, abc: Alphabet) { |t| < 3 || t in STOPWORDS || forall c | c in t :: abc.digit(c) }

  /** A commitment none of whose words counts is never attributed; otherwise every word that counts must be in the
      passage that carries it. */
  lemma CommitmentMustBeCarried(text: string, owner: Option<string>, due: Option<Date>, commitment: string,
      abc: Alphabet)
    requires Attributed(text, owner, due, Some(commitment), abc)
    ensures exists w | w in Tokens(commitment, abc) :: !TooPlain(w, abc)
    ensures exists p | p in Passages(Lines(text, abc.eol), abc) ::
              forall w | w in Tokens(commitment, abc) && !TooPlain(w, abc) :: w in Words(p, abc.space)
  {
    hide Passages, Lines, Tokens, Words, Holds, HoldsDate;
    var terms := CommitmentTerms(commitment, abc);
    var w :| w in terms;
    assert w in Tokens(commitment, abc) && !TooPlain(w, abc);
    var p :| p in Passages(Lines(text, abc.eol), abc)
             && Carries(Words(p, abc.space), owner.value, due.value, terms, abc);
    forall w | w in Tokens(commitment, abc) && !TooPlain(w, abc) ensures w in Words(p, abc.space) {
      assert w in terms;
    }
  }

  /** And one that is carried together with owner and date is attributed. */
  lemma CarriedCommitmentIsAttributed(text: string, owner: string, due: Date, commitment: string, p: string,
      abc: Alphabet)
    requires exists w | w in Tokens(commitment, abc) :: !TooPlain(w, abc)
    requires p in Passages(Lines(text, abc.eol), abc)
    requires forall w | w in Tokens(commitment, abc) && !TooPlain(w, abc) :: w in Words(p, abc.space)
    requires Tokens(owner, abc) != [] && Contains(Words(p, abc.space), Tokens(owner, abc))
    requires exists f | f in DateForms(due) ::
               Tokens(f, abc) != [] && Contains(Words(p, abc.space), Tokens(f, abc))
    ensures Attributed(text, Some(owner), Some(due), Some(commitment), abc)
  {
    hide Passages, Lines, Tokens, Words, Contains, DateForms;
    var terms := CommitmentTerms(commitment, abc);
    var w :| w in Tokens(commitment, abc) && !TooPlain(w, abc);
    assert w in terms;
    forall t | t in terms ensures t in Words(p, abc.space) { assert !TooPlain(t, abc); }
    assert Carries(Words(p, abc.space), owner, due, terms, abc);
  }

  /** ASCII letters and digits, and spaces. */
  function AsciiAlphabet(): Alphabet {
    Alphabet(c => [c], c => 'a' <= c <= 'z' || 'A' <= c <= 'Z' || '0' <= c <= '9' || c == '_', c => c == ' ',
      c => c == '\n', c => '0' <= c <= '9')
  }

  lemma AsciiIsProper()
    ensures Proper(AsciiAlphabet())
  {
  }
}
