/** Path spellings: as tar names them, as a directory walk names them, and as `pathlib` respells them. */
module PosixPath {
  import opened RootfsDigest

  const DOT := 46
  const SLASH := 47

  function StripTrailing(b: Bytes): Bytes {
    if b != [] && b[|b| - 1] == SLASH then StripTrailing(b[..|b| - 1]) else b
  }

  predicate StartsDotSlash(name: Bytes) { |name| >= 2 && name[0] == DOT && name[1] == SLASH }

  /** `name.removeprefix("./").rstrip("/")`. */
  function CleanPath(name: Bytes): Bytes { StripTrailing(if StartsDotSlash(name) then name[2..] else name) }

  /** A component counts unless it is empty or ".". */
  function Kept(c: Bytes): seq<Bytes> { if c == [] || c == [DOT] then [] else [c] }

  /** The components closed by a slash so far, and the one still open. */
  datatype Cut = Cut(done: seq<Bytes>, open: Bytes)

  function CutAt(b: Bytes): Cut {
    if b == [] then Cut([], [])
    else
      var before, c := CutAt(b[..|b| - 1]), b[|b| - 1];
      if c == SLASH then Cut(before.done + Kept(before.open), []) else Cut(before.done, before.open + [c])
  }

  function Components(b: Bytes): seq<Bytes> { CutAt(b).done + Kept(CutAt(b).open) }

  function JoinPath(cs: seq<Bytes>): Bytes {
    if cs == [] then [] else if |cs| == 1 then cs[0] else cs[0] + [SLASH] + JoinPath(cs[1..])
  }

  /** Where below the root a member lands, as the walk spells it; the root itself is the empty path. */
  function Location(name: Bytes): Bytes { JoinPath(Components(name)) }

  /** A leading slash counts once, except that exactly two stay two. */
  function Root(b: Bytes): Bytes {
    if b == [] || b[0] != SLASH then []
    else if |b| >= 2 && b[1] == SLASH && (|b| == 2 || b[2] != SLASH) then [SLASH, SLASH]
    else [SLASH]
  }

  /** `Path(b).as_posix()`. */
  function PosixSpelling(b: Bytes): Bytes {
    var s := Root(b) + Location(b);
    if s == [] then [DOT] else s
  }

  lemma SlashAtEnd(b: Bytes)
    ensures Components(b + [SLASH]) == Components(b)
  {
    assert (b + [SLASH])[..|b|] == b;
  }

  lemma {:induction false} StripKeepsComponents(b: Bytes)
    ensures Components(StripTrailing(b)) == Components(b)
  {
    if b != [] && b[|b| - 1] == SLASH {
      StripKeepsComponents(b[..|b| - 1]);
      SlashAtEnd(b[..|b| - 1]);
      assert b[..|b| - 1] + [SLASH] == b;
    }
  }

  lemma {:induction false} CutAfterDotSlash(b: Bytes)
    ensures CutAt([DOT, SLASH] + b) == CutAt(b)
  {
    var a := [DOT, SLASH] + b;
    if b == [] {
      assert a == [DOT, SLASH] && a[..1] == [DOT] && [DOT][..0] == [];
      assert CutAt([DOT]) == Cut([], [DOT]);
    } else {
      assert a[..|a| - 1] == [DOT, SLASH] + b[..|b| - 1];
      CutAfterDotSlash(b[..|b| - 1]);
    }
  }

  /** Cleaning a name does not move it. */
  lemma CleanKeepsLocation(name: Bytes)
    ensures Location(CleanPath(name)) == Location(name)
  {
    if StartsDotSlash(name) {
      assert name == [DOT, SLASH] + name[2..];
      CutAfterDotSlash(name[2..]);
    }
    StripKeepsComponents(if StartsDotSlash(name) then name[2..] else name);
  }

  lemma {:induction false} StripIsPrefix(b: Bytes)
    ensures StripTrailing(b) <= b
  {
    if b != [] && b[|b| - 1] == SLASH { StripIsPrefix(b[..|b| - 1]); }
  }

  lemma CleanHoldsNoMore(name: Bytes, x: Byte)
    requires x !in name
    ensures x !in CleanPath(name)
  {
    StripIsPrefix(if StartsDotSlash(name) then name[2..] else name);
  }

  lemma OneByte(c: Byte)
    requires c != SLASH && c != DOT
    ensures CutAt([c]) == Cut([], [c]) && Components([c]) == [[c]]
  {
    assert [c][..0] == [];
    assert [] + [c] == [c] && [c][0] != [DOT][0];
  }

  lemma PlainName(c: Byte)
    requires c != SLASH && c != DOT
    ensures Location([c]) == [c] && CleanPath([c]) == [c] && PosixSpelling([c]) == [c]
  {
    OneByte(c);
    hide CutAt, Components;
  }

  lemma DottedName(c: Byte)
    requires c != SLASH && c != DOT
    ensures Location([DOT, SLASH, c]) == [c] && CleanPath([DOT, SLASH, c]) == [c]
    ensures PosixSpelling([DOT, SLASH, c]) == [c]
  {
    PlainName(c);
    CutAfterDotSlash([c]);
    assert [DOT, SLASH] + [c] == [DOT, SLASH, c];
    assert [DOT, SLASH, c][2..] == [c];
  }

  lemma ShortPaths(c: Byte)
    requires c != SLASH && c != DOT
    ensures Location([c]) == [c] && CleanPath([c]) == [c] && PosixSpelling([c]) == [c]
    ensures Location([DOT, SLASH, c]) == [c] && CleanPath([DOT, SLASH, c]) == [c]
    ensures PosixSpelling([DOT, SLASH, c]) == [c]
  {
    hide Location, CleanPath, PosixSpelling;
    PlainName(c);
    DottedName(c);
  }
}
