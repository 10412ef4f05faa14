/** What plain trees and interrupted removals are, path by path. */
module TreeShape {
  import opened Host
  import opened Options

  /** What stands at a path below a node. */
  function At(n: Node, path: seq<string>): Option<Node> {
    if path == [] then Some(n)
    else if n.Dir? && path[0] in n.entries then At(n.entries[path[0]], path[1..])
    else None
  }

  lemma AtBelow(n: Node, name: string, path: seq<string>)
    requires n.Dir? && name in n.entries
    ensures At(n, [name] + path) == At(n.entries[name], path)
  {
    assert ([name] + path)[1..] == path && ([name] + path)[0] == name;
  }

  predicate FileOrDirectory(n: Option<Node>) { n.Some? ==> n.value.Dir? || n.value.File? }

  /** A tree is plain exactly when every path in it leads to a directory or a regular file. */
  lemma {:induction false} PlainExactlyWhen(n: Node)
    ensures Plain(n) <==> forall path :: FileOrDirectory(At(n, path))
  {
    if n.Dir? {
      forall name | name in n.entries { PlainExactlyWhen(n.entries[name]); }
      if Plain(n) {
        forall path ensures FileOrDirectory(At(n, path)) {
          if path != [] && path[0] in n.entries { assert FileOrDirectory(At(n.entries[path[0]], path[1..])); }
        }
      } else {
        var name :| name in n.entries && !Plain(n.entries[name]);
        var path :| !FileOrDirectory(At(n.entries[name], path));
        AtBelow(n, name, path);
        assert !FileOrDirectory(At(n, [name] + path));
      }
    } else {
      var here: seq<string> := [];
      assert At(n, here) == Some(n);
      assert !n.File? ==> !FileOrDirectory(At(n, here));
    }
  }

  /** One entry gone, wherever it is. */
  function Without(n: Node, path: seq<string>): Node {
    if path == [] || !n.Dir? || path[0] !in n.entries then n
    else if |path| == 1 then Dir(n.entries - {path[0]}, n.inode)
    else Dir(n.entries[path[0] := Without(n.entries[path[0]], path[1..])], n.inode)
  }

  lemma {:induction false} WithoutIsPruned(n: Node, path: seq<string>)
    ensures Pruned(Without(n, path), n)
  {
    if path != [] && n.Dir? && path[0] in n.entries && |path| > 1 { WithoutIsPruned(n.entries[path[0]], path[1..]); }
  }

  lemma {:induction false} PrunedTransitive(a: Node, b: Node, c: Node)
    requires Pruned(a, b) && Pruned(b, c)
    ensures Pruned(a, c)
    decreases a
  {
    if a != b && b != c {
      forall name | name in a.entries ensures name in c.entries && Pruned(a.entries[name], c.entries[name]) {
        PrunedTransitive(a.entries[name], b.entries[name], c.entries[name]);
      }
    }
  }

  function Removed(n: Node, paths: seq<seq<string>>): Node {
    if paths == [] then n else Without(Removed(n, paths[..|paths| - 1]), paths[|paths| - 1])
  }

  /** In whatever order a removal takes its entries, and wherever it stops, what is left is a pruning. */
  lemma {:induction false} RemovalPrunes(n: Node, paths: seq<seq<string>>)
    ensures Pruned(Removed(n, paths), n)
  {
    if paths != [] {
      RemovalPrunes(n, paths[..|paths| - 1]);
      WithoutIsPruned(Removed(n, paths[..|paths| - 1]), paths[|paths| - 1]);
      PrunedTransitive(Removed(n, paths), Removed(n, paths[..|paths| - 1]), n);
    }
  }

  /** And each of them is what some cut leaves: below `p` the entries removed so far are missing, and of the custody
      children any that are already gone. */
  lemma CutRemovalLeaves(p: Path, paths: seq<seq<string>>, gone: set<Path>, d: Disk)
    requires p in d.fs
    ensures var parts := map[p := Partial(Removed(d.fs[p], paths), gone)];
            CrashedAt(RmTree(p, parts), d, 1)
            == d.(fs := d.fs[p := Removed(d.fs[p], paths)] - (gone * (Tree(p) - {p})))
  {
    var parts := map[p := Partial(Removed(d.fs[p], paths), gone)];
    RemovalPrunes(d.fs[p], paths);
    var rm := RmTree(p, parts);
    assert rm[..1] == [rm[0]];
    AfterOne(rm[0], d);
    assert Children(p) == Tree(p) - {p} by { match p case Staging => case Bundle => case _ => }
  }
}
