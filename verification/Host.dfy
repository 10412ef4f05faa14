/** The part of the host's filesystem that one container id owns, its journal, and the system calls
    the broker makes on them.  One call is one atomic step, and a crash keeps a prefix of the calls. */
module Host {
  import opened Options

  datatype Node =
    | File(bytes: seq<int>)
    | Dir(entries: map<string, Node>, inode: nat)
    | Socket
    | Link

  /** A directory the broker makes: it knows these apart from the worker's and the sandbox's, whose inode is not 0. */
  const EMPTY := Dir(map[], 0)

  /** What the broker accepts as a workspace tree: directories and regular files, all the way down. */
  predicate Plain(n: Node) {
    match n
    case File(_) => true
    case Dir(es, _) => forall name | name in es :: Plain(es[name])
    case Socket => false
    case Link => false
  }

  /** `part` is what an interrupted recursive removal of `whole` may leave. */
  predicate Pruned(part: Node, whole: Node)
    decreases part
  {
    part == whole
    || (part.Dir? && whole.Dir? && part.inode == whole.inode
        && forall name | name in part.entries ::
             name in whole.entries && Pruned(part.entries[name], whole.entries[name]))
  }

  lemma {:induction false} PrunedPlain(part: Node, whole: Node)
    requires Pruned(part, whole) && Plain(whole)
    ensures Plain(part)
    decreases part
  {
    if part != whole {
      forall name | name in part.entries ensures Plain(part.entries[name]) {
        PrunedPlain(part.entries[name], whole.entries[name]);
      }
    }
  }

  /** Worker paths (`Input`, `Output`, `Proxy`) and root-owned custody paths of one container. */
  datatype Path =
    | Input | Output | Proxy
    | Staging | StagedInput | StagedOutput | StagedProxy
    | Bundle | JobFile | ConfigFile
    | State

  function Children(p: Path): set<Path> {
    match p
    case Staging => {StagedInput, StagedOutput, StagedProxy}
    case Bundle => {JobFile, ConfigFile}
    case _ => {}
  }

  function Tree(p: Path): set<Path> { {p} + Children(p) }

  type Fs = map<Path, Node>

  predicate HasParent(p: Path, fs: Fs) {
    && (p in Children(Staging) ==> Staging in fs)
    && (p in Children(Bundle) ==> Bundle in fs)
  }

  datatype Phase =
    | Prepared | InputSealed | OutputSealed | ProxySealed | Configured | Running | RunFinished | RunFailed

  datatype Terminal = Discard | Restore

  /** A process as `/proc` shows it: the start time tells two holders of one pid apart. */
  datatype Identity = Identity(pid: int, pgid: int, startTicks: int)

  datatype Record = Record(phase: Phase, terminal: Terminal, hasProxy: bool, runner: Option<Identity>)

  datatype Disk = Disk(fs: Fs, journal: Option<Record>, scratch: bool)

  /** A removal interrupted part way: the directory's own content left, and custody children already gone. */
  datatype Partial = Partial(left: Node, gone: set<Path>)

  datatype Op =
    | Skip
    | Gate(passes: bool)               // what is asked outside the disk holds, or raise
    | GateIf(p: Path, passes: bool)    // asked only while `p` exists
    | Scratch                          // write and sync `<id>.tmp`
    | Journal(record: Record)          // os.replace of `<id>.tmp` over `<id>.json`
    | DropScratch
    | Forget                           // unlink `<id>.json`
    | Mkdir(p: Path)
    | EnsureDir(p: Path)
    | CheckDir(p: Path)
    | CheckPlain(p: Path)
    | CheckSocket(p: Path)
    | Move(p: Path, to: Path)
    | Put(p: Path, node: Node)
    | Thin(p: Path, partial: Partial)  // a recursive removal has begun
    | Remove(p: Path)                  // ... and has ended
    | UnlinkSocket(p: Path)
    | Settle(early: bool)              // RENAME_EXCHANGE or RENAME_NOREPLACE of the staged output

  datatype Attempt = Attempt(disk: Disk, ok: bool)

  function Made(p: Path, d: Disk): Attempt {
    if p in d.fs || !HasParent(p, d.fs) then Attempt(d, false)
    else Attempt(d.(fs := d.fs[p := EMPTY]), true)
  }

  function Exec(op: Op, d: Disk): Attempt {
    match op
    case Skip => Attempt(d, true)
    case Gate(passes) => Attempt(d, passes)
    case GateIf(p, passes) => Attempt(d, p in d.fs ==> passes)
    case Scratch => Attempt(d.(scratch := true), true)
    case Journal(r) => Attempt(d.(journal := Some(r), scratch := false), true)
    case DropScratch => Attempt(d.(scratch := false), true)
    case Forget => Attempt(d.(journal := None), true)
    case Mkdir(p) => Made(p, d)
    case EnsureDir(p) => if p in d.fs then Attempt(d, d.fs[p].Dir?) else Made(p, d)
    case CheckDir(p) => Attempt(d, p in d.fs && d.fs[p].Dir?)
    case CheckPlain(p) => Attempt(d, p in d.fs ==> d.fs[p].Dir? && Plain(d.fs[p]))
    case CheckSocket(p) => Attempt(d, p in d.fs && d.fs[p].Socket?)
    case Move(p, to) =>
      if p !in d.fs || to in d.fs || !HasParent(to, d.fs) then Attempt(d, false)
      else Attempt(d.(fs := (d.fs - {p})[to := d.fs[p]]), true)
    case Put(p, node) =>
      if HasParent(p, d.fs) then Attempt(d.(fs := d.fs[p := node]), true) else Attempt(d, false)
    case Thin(p, partial) =>
      if p in d.fs && Pruned(partial.left, d.fs[p])
      then Attempt(d.(fs := d.fs[p := partial.left] - (partial.gone * Children(p))), true)
      else Attempt(d, true)
    case Remove(p) => Attempt(d.(fs := d.fs - Tree(p)), true)
    case UnlinkSocket(p) =>
      if p in d.fs && (d.fs[p].Socket? || d.fs[p].Link?) then Attempt(d.(fs := d.fs - {p}), true)
      else Attempt(d, true)
    case Settle(early) =>
      if StagedOutput !in d.fs then Attempt(d, false)
      else if Output !in d.fs then
        Attempt(d.(fs := (d.fs - {StagedOutput})[Output := d.fs[StagedOutput]]), true)
      else if early then
        Attempt(d.(fs := d.fs[Output := d.fs[StagedOutput]][StagedOutput := d.fs[Output]]), true)
      else Attempt(d, false)
  }

  /** The disk after `ops`; a call that raises is the last one. */
  function After(ops: seq<Op>, d: Disk): Attempt {
    if ops == [] then Attempt(d, true)
    else
      var before := After(ops[..|ops| - 1], d);
      if before.ok then Exec(ops[|ops| - 1], before.disk) else before
  }

  /** The disk left by a crash once `k` of the calls were made. */
  function CrashedAt(ops: seq<Op>, d: Disk, k: nat): Disk
    requires k <= |ops|
  {
    After(ops[..k], d).disk
  }

  lemma {:induction false} AfterConcat(a: seq<Op>, b: seq<Op>, d: Disk)
    ensures After(a + b, d) == if After(a, d).ok then After(b, After(a, d).disk) else After(a, d)
    decreases |b|
  {
    if b == [] {
      assert a + b == a;
    } else {
      assert (a + b)[..|a + b| - 1] == a + b[..|b| - 1];
      AfterConcat(a, b[..|b| - 1], d);
    }
  }

  lemma AfterOne(op: Op, d: Disk)
    ensures After([op], d) == Exec(op, d)
  {
    assert [op][..0] == [];
  }

  lemma {:induction false} StopsAtRaise(ops: seq<Op>, d: Disk, k: nat)
    requires k <= |ops| && !After(ops[..k], d).ok
    ensures After(ops, d) == After(ops[..k], d)
    decreases |ops|
  {
    if k < |ops| {
      assert ops[..|ops| - 1][..k] == ops[..k];
      StopsAtRaise(ops[..|ops| - 1], d, k);
    } else {
      assert ops[..k] == ops;
    }
  }

  /** A property that every call in the list keeps holds at every crash point. */
  lemma {:induction false} KeptAtEveryCrash(ops: seq<Op>, d: Disk, k: nat, keeps: Disk -> bool)
    requires k <= |ops| && keeps(d)
    requires forall i, x: Disk | 0 <= i < |ops| && keeps(x) :: keeps(Exec(ops[i], x).disk)
    ensures keeps(CrashedAt(ops, d, k))
  {
    if k > 0 {
      KeptAtEveryCrash(ops, d, k - 1, keeps);
      assert ops[..k][..k - 1] == ops[..k - 1];
    }
  }

  /** Recursive removal of several paths, each possibly interrupted. */
  function Scrub(ps: seq<Path>, parts: map<Path, Partial>): (r: seq<Op>)
    ensures |r| == 2 * |ps|
  {
    if ps == [] then []
    else Scrub(ps[..|ps| - 1], parts) + RmTree(ps[|ps| - 1], parts)
  }

  function RmTree(p: Path, parts: map<Path, Partial>): seq<Op> {
    [Thin(p, if p in parts then parts[p] else Partial(EMPTY, {})), Remove(p)]
  }

  function Trees(ps: seq<Path>): set<Path> {
    if ps == [] then {} else Trees(ps[..|ps| - 1]) + Tree(ps[|ps| - 1])
  }

  lemma MinusTwice(fs: Fs, a: set<Path>, b: set<Path>)
    ensures fs - a - b == fs - (a + b)
  {
  }

  lemma AfterTwo(a: Op, b: Op, d: Disk)
    ensures After([a, b], d) == if Exec(a, d).ok then Exec(b, Exec(a, d).disk) else Exec(a, d)
  {
    assert [a, b] == [a] + [b];
    AfterConcat([a], [b], d);
    AfterOne(a, d);
    AfterOne(b, Exec(a, d).disk);
  }

  lemma RmTreeRemoves(p: Path, parts: map<Path, Partial>, d: Disk)
    ensures After(RmTree(p, parts), d) == Attempt(d.(fs := d.fs - Tree(p)), true)
  {
    var rm := RmTree(p, parts);
    AfterTwo(rm[0], rm[1], d);
    var fs := Exec(rm[0], d).disk.fs;
    assert forall q | q !in Tree(p) :: (q in fs <==> q in d.fs) && (q in fs ==> fs[q] == d.fs[q]);
    assert fs - Tree(p) == d.fs - Tree(p);
  }

  /** However a removal is cut up, completing it removes exactly the named trees. */
  lemma {:induction false} ScrubRemoves(ps: seq<Path>, parts: map<Path, Partial>, d: Disk)
    ensures After(Scrub(ps, parts), d) == Attempt(d.(fs := d.fs - Trees(ps)), true)
    decreases |ps|
  {
    if ps == [] {
      assert d.fs - {} == d.fs;
    } else {
      var init, p := ps[..|ps| - 1], ps[|ps| - 1];
      ScrubRemoves(init, parts, d);
      AfterConcat(Scrub(init, parts), RmTree(p, parts), d);
      var mid := After(Scrub(init, parts), d).disk;
      RmTreeRemoves(p, parts, mid);
      MinusTwice(d.fs, Trees(init), Tree(p));
    }
  }
}
