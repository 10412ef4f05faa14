/** The root filesystem digest up to the bytes that are hashed: the stream decodes uniquely, and the tree
    walk and the tar scan feed the same stream. */
module RootfsDigest {
  import opened Numerals
  import opened Options
  import opened Sorting

  type Byte = b: int | 0 <= b < 256

  type Bytes = seq<Byte>

  datatype Kind = Directory | File | Symlink | Other

  /** One entry as both encoders see it; `payload` is the link target, or the 32-byte content digest. */
  datatype Entry = Entry(path: Bytes, kind: Kind, mode: nat, uid: nat, gid: nat, payload: Bytes)

  predicate WellFormed(e: Entry) {
    && 0 !in e.path
    && match e.kind
       case File => |e.payload| == 32
       case Symlink => 0 !in e.payload
       case _ => e.payload == []
  }

  function KindName(k: Kind): Bytes {
    match k
    case Directory => [100, 105, 114, 101, 99, 116, 111, 114, 121]
    case File => [102, 105, 108, 101]
    case Symlink => [115, 121, 109, 108, 105, 110, 107]
    case Other => [111, 116, 104, 101, 114]
  }

  function KindNamed(name: Bytes): Option<Kind> {
    if name == KindName(Directory) then Some(Directory)
    else if name == KindName(File) then Some(File)
    else if name == KindName(Symlink) then Some(Symlink)
    else if name == KindName(Other) then Some(Other)
    else None
  }

  function Ascii(digit: nat): Byte
    requires digit < 10
  {
    48 + digit
  }

  /** A number as ASCII digits. */
  function Numeral(n: nat, base: Base): Bytes {
    var ds := Digits(n, base);
    seq(|ds|, i requires 0 <= i < |ds| => Ascii(ds[i]))
  }

  function ReadNumeral(bs: Bytes, base: Base): Option<nat> {
    if forall i | 0 <= i < |bs| :: 48 <= bs[i] <= 57
    then Some(Value(seq(|bs|, i requires 0 <= i < |bs| => bs[i] as int - 48), base))
    else None
  }

  lemma NumeralReadsBack(n: nat, base: Base)
    ensures ReadNumeral(Numeral(n, base), base) == Some(n) && 0 !in Numeral(n, base)
  {
    var ds, bs := Digits(n, base), Numeral(n, base);
    DigitsReadBack(n, base);
    assert ds == seq(|bs|, i requires 0 <= i < |bs| => bs[i] as int - 48);
  }

  function Field(f: Bytes): Bytes { f + [0] }

  function Encode(e: Entry): Bytes {
    Field(e.path) + Field(KindName(e.kind)) + Field(Numeral(e.mode, 8)) + Field(Numeral(e.uid, 10))
    + Field(Numeral(e.gid, 10)) + Field(e.payload)
  }

  function EncodeAll(es: seq<Entry>): Bytes {
    if es == [] then [] else Encode(es[0]) + EncodeAll(es[1..])
  }

  // ---------------------------------------------------------------- the decoder

  function ReadField(bs: Bytes): Option<(Bytes, Bytes)> {
    if bs == [] then None
    else if bs[0] == 0 then Some(([], bs[1..]))
    else match ReadField(bs[1..])
         case None => None
         case Some(r) => Some(([bs[0]] + r.0, r.1))
  }

  function ReadNumber(bs: Bytes, base: Base): Option<(nat, Bytes)> {
    match ReadField(bs) case None => None case Some(r) =>
    match ReadNumeral(r.0, base) case None => None case Some(n) => Some((n, r.1))
  }

  /** The content digest may hold NULs, so a file's payload is read by length. */
  function ReadPayload(k: Kind, bs: Bytes): Option<(Bytes, Bytes)> {
    if k != File then ReadField(bs)
    else if |bs| >= 33 && bs[32] == 0 then Some((bs[..32], bs[33..]))
    else None
  }

  function ReadEntry(bs: Bytes): Option<(Entry, Bytes)> {
    match ReadField(bs) case None => None case Some(path) =>
    match ReadField(path.1) case None => None case Some(name) =>
    match KindNamed(name.0) case None => None case Some(kind) =>
    match ReadNumber(name.1, 8) case None => None case Some(mode) =>
    match ReadNumber(mode.1, 10) case None => None case Some(uid) =>
    match ReadNumber(uid.1, 10) case None => None case Some(gid) =>
    match ReadPayload(kind, gid.1) case None => None case Some(payload) =>
      Some((Entry(path.0, kind, mode.0, uid.0, gid.0, payload.0), payload.1))
  }

  function Decode(bs: Bytes): Option<seq<Entry>>
    decreases |bs|
  {
    if bs == [] then Some([])
    else match ReadEntry(bs)
         case None => None
         case Some(r) =>
           if |r.1| >= |bs| then None
           else match Decode(r.1)
                case None => None
                case Some(rest) => Some([r.0] + rest)
  }

  lemma {:induction false} FieldReadsBack(f: Bytes, rest: Bytes)
    requires 0 !in f
    ensures ReadField(Field(f) + rest) == Some((f, rest))
  {
    var bs := Field(f) + rest;
    if f == [] {
      assert bs[1..] == rest;
    } else {
      FieldReadsBack(f[1..], rest);
      assert bs[1..] == Field(f[1..]) + rest;
      assert [f[0]] + f[1..] == f;
    }
  }

  lemma NumberReadsBack(n: nat, base: Base, rest: Bytes)
    ensures ReadNumber(Field(Numeral(n, base)) + rest, base) == Some((n, rest))
  {
    NumeralReadsBack(n, base);
    FieldReadsBack(Numeral(n, base), rest);
    hide Field, Numeral, ReadField, ReadNumeral;
  }

  lemma PayloadReadsBack(e: Entry, rest: Bytes)
    requires WellFormed(e)
    ensures ReadPayload(e.kind, Field(e.payload) + rest) == Some((e.payload, rest))
  {
    if e.kind == File {
      var bs := Field(e.payload) + rest;
      assert bs[..32] == e.payload && bs[33..] == rest;
    } else {
      FieldReadsBack(e.payload, rest);
    }
  }

  lemma KindReadsBack(k: Kind)
    ensures KindNamed(KindName(k)) == Some(k) && 0 !in KindName(k)
  {
    assert |KindName(Directory)| == 9 && |KindName(File)| == 4 && |KindName(Symlink)| == 7 && |KindName(Other)| == 5;
  }

  lemma EntryReadsBack(e: Entry, rest: Bytes)
    requires WellFormed(e)
    ensures ReadEntry(Encode(e) + rest) == Some((e, rest))
  {
    var s5 := Field(e.payload) + rest;
    var s4 := Field(Numeral(e.gid, 10)) + s5;
    var s3 := Field(Numeral(e.uid, 10)) + s4;
    var s2 := Field(Numeral(e.mode, 8)) + s3;
    var s1 := Field(KindName(e.kind)) + s2;
    assert Encode(e) + rest == Field(e.path) + s1;
    KindReadsBack(e.kind);
    FieldReadsBack(e.path, s1);
    FieldReadsBack(KindName(e.kind), s2);
    NumberReadsBack(e.mode, 8, s3);
    NumberReadsBack(e.uid, 10, s4);
    NumberReadsBack(e.gid, 10, s5);
    PayloadReadsBack(e, rest);
    hide ReadField, ReadNumber, ReadPayload, Field, Numeral, KindName, KindNamed;
  }

  lemma EntryTakesSpace(e: Entry)
    ensures Encode(e) != []
  {
    hide Numeral, KindName;
  }

  /** The decoder inverts the encoder on every list of well-formed entries. */
  lemma {:induction false} StreamReadsBack(es: seq<Entry>)
    requires forall i | 0 <= i < |es| :: WellFormed(es[i])
    ensures Decode(EncodeAll(es)) == Some(es)
  {
    if es != [] {
      StreamReadsBack(es[1..]);
      EntryReadsBack(es[0], EncodeAll(es[1..]));
      EntryTakesSpace(es[0]);
      hide ReadEntry, Encode, WellFormed;
      assert EncodeAll(es) == Encode(es[0]) + EncodeAll(es[1..]);
      assert [es[0]] + es[1..] == es;
    }
  }

  /** So two entry lists with one pre-image are one list, whatever the 32 raw bytes of each file are. */
  lemma PreImageDeterminesEntries(a: seq<Entry>, b: seq<Entry>)
    requires forall i | 0 <= i < |a| :: WellFormed(a[i])
    requires forall i | 0 <= i < |b| :: WellFormed(b[i])
    requires EncodeAll(a) == EncodeAll(b)
    ensures a == b
  {
    StreamReadsBack(a);
    StreamReadsBack(b);
  }
}
