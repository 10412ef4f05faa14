/** What travels between the sandbox's turn loop and the model proxy, as each side reads it. */
module ModelMessages {
  import opened Options
  import opened TokenTotals

  // ---------------------------------------------------------------- usage counts

  /** A usage value as JSON may hold it, for a count `n`: a number, a number with a zero fraction, one with another
      fraction, the text of either ("42", "42.0"), a boolean, or anything else. */
  datatype Field =
    | Missing | Null | Number(n: nat) | Whole(n: nat) | Fraction(n: nat) | Digits(n: nat) | ZeroDecimal(n: nat)
    | Boolean(b: bool) | Odd

  datatype Usage = NoUsage | NullUsage | Usage(input: Field, output: Field, cacheCreation: Field, cacheRead: Field)

  /** `_int_or_zero`: `int()` truncates a fraction and refuses a decimal point in text. */
  function Lenient(f: Field): nat {
    match f
    case Number(n) => n
    case Whole(n) => n
    case Fraction(n) => n
    case Digits(n) => n
    case Boolean(b) => if b then 1 else 0
    case _ => 0
  }

  /** What the proxy adds to its ledger for a 200. */
  function Counted(u: Usage): Totals {
    match u
    case Usage(i, o, c, r) => Totals(Lenient(i), Lenient(o), Lenient(c), Lenient(r))
    case _ => ZERO
  }

  /** An integer field of the sandbox's response model takes the value, or its default when it is missing. */
  predicate TakesInt(f: Field) { !f.Null? && !f.Fraction? && !f.Odd? }

  predicate TakesUsage(u: Usage) {
    match u
    case NoUsage => true
    case NullUsage => false
    case Usage(i, o, c, r) => TakesInt(i) && TakesInt(o) && (c.Null? || TakesInt(c)) && (r.Null? || TakesInt(r))
  }

  predicate Integral(f: Field) {
    f.Missing? || f.Number? || f.Whole? || f.Digits? || f.ZeroDecimal? || f.Boolean?
  }

  /** Which usage blocks the sandbox accepts: none at all, or counts that are integral in some form, the two for the
      cache also null. */
  lemma TakesUsageExactlyWhen(u: Usage)
    ensures TakesUsage(u) <==>
            u == NoUsage
            || (u.Usage? && Integral(u.input) && Integral(u.output)
                && (u.cacheCreation == Null || Integral(u.cacheCreation))
                && (u.cacheRead == Null || Integral(u.cacheRead)))
  {
    if u.Usage? { FormsOfCount(u.input, u.output, u.cacheCreation, u.cacheRead); }
    hide TakesInt, Integral;
  }

  lemma FormsOfCount(i: Field, o: Field, c: Field, r: Field)
    ensures (TakesInt(i) <==> Integral(i)) && (TakesInt(o) <==> Integral(o))
    ensures (TakesInt(c) <==> Integral(c)) && (TakesInt(r) <==> Integral(r))
  {
  }

  function Lax(f: Field): nat {
    match f
    case Number(n) => n
    case Whole(n) => n
    case Digits(n) => n
    case ZeroDecimal(n) => n
    case Boolean(b) => if b then 1 else 0
    case _ => 0
  }

  /** What the sandbox adds for a response it accepted. */
  function Seen(u: Usage): Totals {
    match u
    case Usage(i, o, c, r) => Totals(Lax(i), Lax(o), Lax(c), Lax(r))
    case _ => ZERO
  }

  function ExcessOf(f: Field): nat { if f.ZeroDecimal? then f.n else 0 }

  /** Counts written as text with a decimal point: the sandbox takes them, the proxy counts nothing. */
  function Excess(u: Usage): Totals {
    match u
    case Usage(i, o, c, r) => Totals(ExcessOf(i), ExcessOf(o), ExcessOf(c), ExcessOf(r))
    case _ => ZERO
  }

  lemma SidesOfField(f: Field)
    requires f.Null? || TakesInt(f)
    ensures Lax(f) == Lenient(f) + ExcessOf(f)
  {
  }

  lemma PlusByField(s: Totals, a: Totals, b: Totals)
    requires s.input == a.input + b.input && s.output == a.output + b.output
    requires s.cacheCreation == a.cacheCreation + b.cacheCreation && s.cacheRead == a.cacheRead + b.cacheRead
    ensures s == Plus(a, b)
  {
  }

  lemma TotalsByField(i: Field, o: Field, c: Field, r: Field)
    ensures var u := Usage.Usage(i, o, c, r);
            && Seen(u) == Totals(Lax(i), Lax(o), Lax(c), Lax(r))
            && Counted(u) == Totals(Lenient(i), Lenient(o), Lenient(c), Lenient(r))
            && Excess(u) == Totals(ExcessOf(i), ExcessOf(o), ExcessOf(c), ExcessOf(r))
  {
    hide Lax, Lenient, ExcessOf;
  }

  lemma TakesEachField(i: Field, o: Field, c: Field, r: Field)
    requires TakesUsage(Usage.Usage(i, o, c, r))
    ensures TakesInt(i) && TakesInt(o) && (c.Null? || TakesInt(c)) && (r.Null? || TakesInt(r))
  {
    hide TakesInt;
  }

  lemma SidesOfUsage(i: Field, o: Field, c: Field, r: Field)
    requires TakesUsage(Usage.Usage(i, o, c, r))
    ensures var u := Usage.Usage(i, o, c, r); Seen(u) == Plus(Counted(u), Excess(u))
  {
    TakesEachField(i, o, c, r);
    hide TakesUsage, TakesInt, Lax, Lenient, ExcessOf, Seen, Counted, Excess, Plus;
    SidesOfField(i);
    SidesOfField(o);
    SidesOfField(c);
    SidesOfField(r);
    TotalsByField(i, o, c, r);
    var u := Usage.Usage(i, o, c, r);
    PlusByField(Seen(u), Counted(u), Excess(u));
  }

  /** For an accepted usage block the two sides differ by exactly the decimal texts. */
  lemma SidesDifferByDecimalText(u: Usage)
    requires TakesUsage(u)
    ensures Seen(u) == Plus(Counted(u), Excess(u))
    ensures Seen(u) == Counted(u) <==> Excess(u) == ZERO
  {
    if u.Usage? {
      SidesOfUsage(u.input, u.output, u.cacheCreation, u.cacheRead);
    }
    hide TakesUsage, Seen, Counted, Excess, Plus;
    PlusZero(Counted(u), Excess(u));
  }

  // ---------------------------------------------------------------- content blocks

  datatype Value = Text(s: string) | Object | NullValue | OtherValue

  type Fields = map<string, Value>

  predicate IsText(b: Fields, f: string) { f in b && b[f].Text? }

  predicate TextOrNone(b: Fields, f: string) { f in b ==> b[f].Text? || b[f].NullValue? }

  /** A literal type with a default: absent, or just this text. */
  predicate TypeIs(b: Fields, t: string) { "type" in b ==> b["type"] == Text(t) }

  /** The sandbox's block models, in the order of their union. */
  datatype Form = TextForm | ToolUseForm | ToolResultForm | BaseForm

  /** The model takes the block; all of them allow further fields. */
  predicate Takes(form: Form, b: Fields) {
    match form
    case TextForm => TypeIs(b, "text") && IsText(b, "text")
    case ToolUseForm =>
      TypeIs(b, "tool_use") && IsText(b, "id") && IsText(b, "name") && ("input" in b ==> b["input"].Object?)
    case ToolResultForm => TypeIs(b, "tool_result") && IsText(b, "tool_use_id") && IsText(b, "content")
    case BaseForm =>
      && IsText(b, "type") && TextOrNone(b, "text") && TextOrNone(b, "id") && TextOrNone(b, "name")
      && ("input" in b ==> b["input"].Object? || b["input"].NullValue?)
  }

  function Has(b: Fields, f: string): nat { if f in b then 1 else 0 }

  /** How many of the fields the model declares the block gives. */
  function FieldsSet(form: Form, b: Fields): nat {
    match form
    case TextForm => Has(b, "type") + Has(b, "text")
    case ToolUseForm => Has(b, "type") + Has(b, "id") + Has(b, "name") + Has(b, "input")
    case ToolResultForm => Has(b, "type") + Has(b, "tool_use_id") + Has(b, "content")
    case BaseForm => Has(b, "type") + Has(b, "text") + Has(b, "id") + Has(b, "name") + Has(b, "input")
  }

  function Better(best: Option<Form>, form: Form, b: Fields): Option<Form> {
    if Takes(form, b) && (best.None? || FieldsSet(best.value, b) < FieldsSet(form, b)) then Some(form) else best
  }

  /** The union's choice: of the models that take the block, one with the most fields set, the first on a tie. */
  function Chosen(b: Fields): (r: Option<Form>)
    ensures r.Some? ==> Takes(r.value, b)
    ensures r.None? <==> forall form :: !Takes(form, b)
  {
    Better(Better(Better(Better(None, TextForm, b), ToolUseForm, b), ToolResultForm, b), BaseForm, b)
  }

  predicate TakesBlock(b: Fields) { Chosen(b).Some? }

  predicate IsToolUse(b: Fields) { Chosen(b) == Some(ToolUseForm) }

  /** Which blocks the sandbox takes, written out. */
  lemma TakesBlockExactlyWhen(b: Fields)
    ensures TakesBlock(b) <==>
            || ("text" in b && b["text"].Text? && ("type" in b ==> b["type"] == Text("text")))
            || ("id" in b && b["id"].Text? && "name" in b && b["name"].Text?
                && ("type" in b ==> b["type"] == Text("tool_use")) && ("input" in b ==> b["input"].Object?))
            || ("tool_use_id" in b && b["tool_use_id"].Text? && "content" in b && b["content"].Text?
                && ("type" in b ==> b["type"] == Text("tool_result")))
            || ("type" in b && b["type"].Text? && ("input" in b ==> b["input"].Object? || b["input"].NullValue?)
                && forall f | f in {"text", "id", "name"} && f in b :: b[f].Text? || b[f].NullValue?)
  {
    assert Takes(TextForm, b) || Takes(ToolUseForm, b) || Takes(ToolResultForm, b) || Takes(BaseForm, b)
      <==> TakesBlock(b);
    hide Chosen;
  }

  /** A block is a tool call if it reads as one and the fallback model, which knows one field more, does not fit
      better: it does exactly when the type is given and a text field is there too. */
  lemma ToolUseExactlyWhen(b: Fields)
    ensures IsToolUse(b) <==>
            && "id" in b && b["id"].Text? && "name" in b && b["name"].Text?
            && ("type" in b ==> b["type"] == Text("tool_use")) && ("input" in b ==> b["input"].Object?)
            && !("type" in b && "text" in b && (b["text"].Text? || b["text"].NullValue?))
  {
    TypesDiffer();
  }

  lemma TypesDiffer()
    ensures "tool_use" != "text" && "tool_use" != "tool_result" && "text" != "tool_result"
  {
    assert |"tool_use"| == 8 && |"text"| == 4 && |"tool_result"| == 11;
  }

  function Default(b: Fields, f: string, v: Value): Fields { if f in b then b else b[f := v] }

  /** The block as the next request carries it: nulls are left out, the chosen model's defaults are filled in. */
  function Echo(b: Fields): Fields {
    var kept := map f | f in b && !b[f].NullValue? :: b[f];
    match Chosen(b)
    case Some(TextForm) => Default(kept, "type", Text("text"))
    case Some(ToolUseForm) => Default(Default(kept, "type", Text("tool_use")), "input", Object)
    case Some(ToolResultForm) => Default(kept, "type", Text("tool_result"))
    case _ => kept
  }

  const KNOWN := {"type", "id", "name", "input", "text", "tool_use_id", "content"}

  predicate KnownField(f: string, v: Value) { f in KNOWN && if f == "input" then v.Object? else v.Text? }

  /** The proxy's strict block model: no other field, and each of the type it expects. */
  predicate Fits(b: Fields) {
    IsText(b, "type") && forall f | f in b :: KnownField(f, b[f]) || (b[f].NullValue? && f in KNOWN && f != "type")
  }

  /** The proxy's block model, written out. */
  lemma FitsExactlyWhen(b: Fields)
    ensures Fits(b) <==>
            && "type" in b && b["type"].Text?
            && b.Keys <= {"type", "id", "name", "input", "text", "tool_use_id", "content"}
            && ("input" in b ==> b["input"].Object? || b["input"].NullValue?)
            && forall f | f in {"id", "name", "text", "tool_use_id", "content"} && f in b ::
                 b[f].Text? || b[f].NullValue?
  {
    InputIsAlone();
    if Fits(b) { forall f | f in b ensures f in KNOWN { } }
  }

  lemma InputIsAlone()
    ensures "input" !in {"type", "id", "name", "text", "tool_use_id", "content"} && "type" != "input"
  {
    assert |"input"| == 5 && |"type"| == 4 && |"id"| == 2 && |"name"| == 4 && |"text"| == 4;
    assert |"tool_use_id"| == 11 && |"content"| == 7;
  }

  /** The block holds nothing but fields the proxy knows, of the types it expects. */
  predicate OnlyKnown(b: Fields) { forall f | f in b && !b[f].NullValue? :: KnownField(f, b[f]) }

  lemma EchoHolds(b: Fields)
    requires TakesBlock(b)
    ensures forall f | f in b && !b[f].NullValue? :: f in Echo(b) && Echo(b)[f] == b[f]
    ensures forall f | f in Echo(b) :: (f in b && !b[f].NullValue?) || KnownField(f, Echo(b)[f])
    ensures forall f | f in Echo(b) :: !Echo(b)[f].NullValue?
    ensures IsText(Echo(b), "type")
  {
    hide Chosen;
  }

  /** A block the sandbox takes comes back fit for the proxy exactly when it holds only fields the proxy knows. */
  lemma EchoFitsExactlyWhen(b: Fields)
    requires TakesBlock(b)
    ensures Fits(Echo(b)) <==> OnlyKnown(b)
  {
    var e := Echo(b);
    EchoHolds(b);
    hide Chosen, Echo, TakesBlock;
    if OnlyKnown(b) {
      forall f | f in e ensures KnownField(f, e[f]) { if f in b && !b[f].NullValue? { assert KnownField(f, b[f]); } }
    } else {
      var f :| f in b && !b[f].NullValue? && !KnownField(f, b[f]);
      assert f in e && e[f] == b[f];
    }
  }

  /** `fails` says what running it would do, for a tool call. */
  datatype Block = Block(fields: Fields, fails: bool)

  datatype ToolCall = ToolCall(name: string, fails: bool)

  function ToolCalls(blocks: seq<Block>): seq<ToolCall> {
    if blocks == [] then []
    else
      (if IsToolUse(blocks[0].fields) then [ToolCall(blocks[0].fields["name"].s, blocks[0].fails)] else [])
      + ToolCalls(blocks[1..])
  }

  datatype StopReason = ToolUse | EndTurn | StopSequence | OtherReason

  /** An answer; `framed` says its own id, type, role and model parse, and `size` is how many bytes it and the
      results of its tools add to the next request. */
  datatype Message = Message(framed: bool, stop: StopReason, blocks: seq<Block>, usage: Usage, size: nat)

  /** The sandbox's response model takes the answer. */
  predicate Parses(m: Message) { m.framed && TakesUsage(m.usage) && forall b | b in m.blocks :: TakesBlock(b.fields) }

  function EchoAll(blocks: seq<Block>): seq<Fields> {
    seq(|blocks|, i requires 0 <= i < |blocks| => Echo(blocks[i].fields))
  }

  predicate AllFit(bs: seq<Fields>) { forall i | 0 <= i < |bs| :: Fits(bs[i]) }

  /** Every block of the answer holds only fields the proxy knows. */
  predicate OnlyKnownFields(m: Message) { forall b | b in m.blocks :: OnlyKnown(b.fields) }

  lemma EchoAllFitsExactlyWhen(m: Message)
    requires Parses(m)
    ensures AllFit(EchoAll(m.blocks)) <==> OnlyKnownFields(m)
  {
    hide OnlyKnown, Fits, Echo, TakesBlock;
    forall i | 0 <= i < |m.blocks| ensures Fits(EchoAll(m.blocks)[i]) <==> OnlyKnown(m.blocks[i].fields) {
      assert m.blocks[i] in m.blocks;
      EchoFitsExactlyWhen(m.blocks[i].fields);
    }
    forall b | b in m.blocks && AllFit(EchoAll(m.blocks)) ensures OnlyKnown(b.fields) {
      var i :| 0 <= i < |m.blocks| && m.blocks[i] == b;
      assert Fits(EchoAll(m.blocks)[i]);
    }
  }
}
