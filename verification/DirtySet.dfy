/** The document model's set of dirty paths: an antichain under the dotted-prefix
    order, kept by `NodeRoot.addDirty` and fed by `Node.Save` at any depth. */
module DirtySet {
  type Path = string
  type Data = string
  type Dirty = map<Path, Data>

  // q lies strictly inside the subtree of p.
  predicate Under(p: Path, q: Path) {
    p + "." <= q
  }

  lemma UnderTransitive(p: Path, q: Path, r: Path)
    requires Under(p, q) && Under(q, r)
    ensures Under(p, r)
  {
    assert (p + ".") == q[..|p| + 1] && q == r[..|q|];
    assert r[..|p| + 1] == q[..|p| + 1];
  }

  // What marking a path does to the set.
  function Mark(dirty: Dirty, path: Path, data: Data): Dirty {
    if exists p :: p in dirty && Under(p, path) then dirty
    else (map p | p in dirty && p != path && !Under(path, p) :: dirty[p])[path := data]
  }

  // ---- Minimal elements ----

  ghost predicate IsMinimal(paths: set<Path>, p: Path) {
    p in paths && forall q :: q in paths ==> !Under(q, p)
  }

  ghost function Minimal(paths: set<Path>): set<Path> {
    set p | p in paths && IsMinimal(paths, p)
  }

  // Every path has a minimal one at or above it.
  lemma {:induction false} MinimalAbove(paths: set<Path>, q: Path)
    requires q in paths
    ensures exists k :: k in Minimal(paths) && (k == q || Under(k, q))
    decreases |q|
  {
    if q !in Minimal(paths) {
      var p :| p in paths && Under(p, q);
      MinimalAbove(paths, p);
      var k :| k in Minimal(paths) && (k == p || Under(k, p));
      if k != p {
        UnderTransitive(k, p, q);
      }
    }
  }

  lemma MarkKeepsMinimal(paths: set<Path>, dirty: Dirty, path: Path, data: Data)
    requires dirty.Keys == Minimal(paths)
    ensures Mark(dirty, path, data).Keys == Minimal(paths + {path})
  {
    var after, paths' := Mark(dirty, path, data), paths + {path};
    if q :| q in paths && Under(q, path) {
      MinimalAbove(paths, q);
      var k :| k in Minimal(paths) && (k == q || Under(k, q));
      if k != q { UnderTransitive(k, q, path); }
      assert after == dirty;
      forall p ensures p in Minimal(paths) <==> p in Minimal(paths') {
        if p in paths && Under(path, p) {
          UnderTransitive(q, path, p);
        }
      }
    } else {
      assert forall p :: p in dirty ==> !Under(p, path);
      forall p ensures p in after <==> p in Minimal(paths') {
      }
    }
  }

  // ---- Runs of marks ----

  datatype Change = Change(path: Path, data: Data)

  function Paths(marks: seq<Change>): set<Path> {
    set m | m in marks :: m.path
  }

  // The set after the marks, since the last reset.
  function Marked(marks: seq<Change>): Dirty {
    if marks == [] then map[]
    else
      var m := marks[|marks| - 1];
      Mark(Marked(marks[..|marks| - 1]), m.path, m.data)
  }

  // The data of the last mark of `path`.
  function LastData(marks: seq<Change>, path: Path): Data
    requires path in Paths(marks)
  {
    var n := |marks| - 1;
    if marks[n].path == path then marks[n].data
    else
      assert marks == marks[..n] + [marks[n]];
      LastData(marks[..n], path)
  }

  lemma PathsAppend(marks: seq<Change>, m: Change)
    ensures Paths(marks + [m]) == Paths(marks) + {m.path}
  {
    forall p ensures p in Paths(marks + [m]) <==> p in Paths(marks) + {m.path} {
      if p in Paths(marks) {
        var x :| x in marks && x.path == p;
        assert x in marks + [m];
      }
      assert m in marks + [m];
    }
  }

  /** After any marks the keys are exactly the minimal marked paths, and each key
      holds the data of its last mark. */
  lemma {:induction false} MarkedIsMinimal(marks: seq<Change>)
    ensures Marked(marks).Keys == Minimal(Paths(marks))
    ensures forall p :: p in Marked(marks) ==> p in Paths(marks) && Marked(marks)[p] == LastData(marks, p)
  {
    if marks != [] {
      var n := |marks| - 1;
      var m := marks[n];
      assert marks == marks[..n] + [m];
      PathsAppend(marks[..n], m);
      MarkedIsMinimal(marks[..n]);
      MarkKeepsMinimal(Paths(marks[..n]), Marked(marks[..n]), m.path, m.data);
      forall p | p in Marked(marks) ensures p in Paths(marks) && Marked(marks)[p] == LastData(marks, p) {
        assert p in Minimal(Paths(marks));
      }
    }
  }

  /** No marked path is lost: some key is the path itself or an ancestor of it.
      No key lies under another. */
  lemma MarksAreCovered(marks: seq<Change>, path: Path)
    requires path in Paths(marks)
    ensures exists k :: k in Marked(marks) && (k == path || Under(k, path))
    ensures forall p, q :: p in Marked(marks) && q in Marked(marks) ==> !Under(p, q)
  {
    MarkedIsMinimal(marks);
    MinimalAbove(Paths(marks), path);
  }

  /** The order of the calls does not matter: the same paths leave the same keys. */
  lemma OrderDoesNotMatter(a: seq<Change>, b: seq<Change>)
    requires Paths(a) == Paths(b)
    ensures Marked(a).Keys == Marked(b).Keys
  {
    MarkedIsMinimal(a);
    MarkedIsMinimal(b);
  }

  // ---- The nodes ----

  // Path segments joined with dots.
  function Join(chain: seq<string>): Path
    requires chain != []
  {
    if |chain| == 1 then chain[0] else chain[0] + "." + Join(chain[1..])
  }

  lemma {:induction false} JoinAppend(chain: seq<string>, rest: seq<string>)
    requires chain != [] && rest != []
    ensures Join(chain + rest) == Join(chain) + "." + Join(rest)
  {
    if |chain| == 1 {
      assert (chain + rest)[1..] == rest;
    } else {
      assert (chain + rest)[1..] == chain[1..] + rest;
      JoinAppend(chain[1..], rest);
      assert chain[0] + "." + (Join(chain[1..]) + "." + Join(rest))
          == (chain[0] + "." + Join(chain[1..])) + "." + Join(rest);
    }
  }

  ghost predicate DotFree(chain: seq<string>) {
    forall i :: 0 <= i < |chain| ==> '.' !in chain[i]
  }

  // A dot in a string lies past any dotless prefix.
  lemma DotIsPast(a: string, s: string, k: nat)
    requires '.' !in a && a <= s && k < |s| && s[k] == '.'
    ensures |a| <= k
  {
    assert forall i :: 0 <= i < |a| ==> s[i] == a[i] && a[i] in a;
  }

  // A dotless first segment is read off a joined path in one way.
  lemma FirstSegment(a: string, x: string, b: string, y: string)
    requires '.' !in a && '.' !in b && a + "." + x <= b + "." + y
    ensures a == b && x <= y
  {
    var r, s := a + "." + x, b + "." + y;
    assert r[|a|] == s[|a|] == '.' && s[|b|] == '.';
    assert a == r[..|a|] == s[..|a|];
    DotIsPast(a, s, |b|);
    DotIsPast(b, s, |a|);
    assert x == r[|a| + 1..] && y == s[|a| + 1..];
  }

  lemma {:induction false} UnderMeansPrefix(a: seq<string>, b: seq<string>)
    requires a != [] && b != [] && DotFree(a) && DotFree(b) && Under(Join(a), Join(b))
    ensures |a| < |b| && b[..|a|] == a
  {
    var ra := if |a| == 1 then "" else Join(a[1..]) + ".";
    assert Join(a) + "." == a[0] + "." + ra;
    assert (a[0] + "." + ra)[|a[0]|] == '.' == Join(b)[|a[0]|];
    if |b| > 1 {
      FirstSegment(a[0], ra, b[0], Join(b[1..]));
      assert b == [b[0]] + b[1..] && a == [a[0]] + a[1..];
      if |a| > 1 {
        UnderMeansPrefix(a[1..], b[1..]);
      }
    }
  }

  lemma PrefixMeansUnder(a: seq<string>, b: seq<string>)
    requires 0 < |a| < |b| && b[..|a|] == a
    ensures Under(Join(a), Join(b))
  {
    var rest := b[|a|..];
    assert b == a + rest;
    JoinAppend(a, rest);
    var p, q := Join(a) + ".", Join(rest);
    assert p <= p + q;
  }

  /** Saving an ancestor covers saving a descendant, and nothing else: with
      dotless segments the dotted-prefix order on joined paths is the ancestor
      order on nodes. */
  lemma UnderIsAncestor(a: seq<string>, b: seq<string>)
    requires a != [] && b != [] && DotFree(a) && DotFree(b)
    ensures Under(Join(a), Join(b)) <==> |a| < |b| && b[..|a|] == a
  {
    if |a| < |b| && b[..|a|] == a {
      PrefixMeansUnder(a, b);
    }
    if Under(Join(a), Join(b)) {
      UnderMeansPrefix(a, b);
    }
  }

  class NodeRoot {
    var dirtyNode: Dirty

    constructor ()
      ensures dirtyNode == map[]
    {
      dirtyNode := map[];
    }

    method ResetDirty()
      modifies this
      ensures dirtyNode == Marked([])
    {
      dirtyNode := map[];
    }

    /** The loop visits the keys in any order and may stop early; the panic on an
        empty path is the result `false`. */
    method AddDirty(path: Path, data: Data) returns (ok: bool)
      modifies this
      ensures ok == (path != "")
      ensures dirtyNode == if ok then Mark(old(dirtyNode), path, data) else old(dirtyNode)
    {
      if path == "" { return false; }
      var toDelete: set<Path> := {};
      var todo := dirtyNode.Keys;
      while todo != {}
        invariant todo <= dirtyNode.Keys
        invariant toDelete == set p | p in dirtyNode && p !in todo && (p == path || Under(path, p))
        invariant forall p :: p in dirtyNode && p !in todo ==> !Under(p, path)
        decreases todo
      {
        var p :| p in todo;
        todo := todo - {p};
        if p == path {
          toDelete := toDelete + {p};
          continue;
        }
        if Under(p, path) { return true; }
        if Under(path, p) {
          toDelete := toDelete + {p};
        }
      }
      dirtyNode := (dirtyNode - toDelete)[path := data];
      return true;
    }
  }

  class Node {
    var data: Data
    const parent: Node?
    const root: NodeRoot
    const path: string
    ghost const chain: seq<string>  // the paths of the nodes from the root down to this one

    constructor (data: Data, parent: Node?, root: NodeRoot, path: string)
      requires parent != null ==> parent.Valid() && parent.root == root
      ensures Valid() && this.data == data && this.parent == parent && this.root == root && this.path == path
      ensures chain == (if parent == null then [] else parent.chain) + [path]
    {
      this.data := data;
      this.parent := parent;
      this.root := root;
      this.path := path;
      chain := (if parent == null then [] else parent.chain) + [path];
    }

    ghost predicate Valid()
      decreases |chain|
    {
      if parent == null then chain == [path]
      else parent.root == root && |parent.chain| < |chain| && parent.chain != [] && chain == parent.chain + [path]
           && parent.Valid()
    }

    // Passes a change in the subtree up to the root, lengthening its path.
    method AddDirty(below: Path, data: Data) returns (ok: bool)
      requires Valid()
      modifies root
      ensures chain != [] && ok
      ensures root.dirtyNode == Mark(old(root.dirtyNode), Join(chain) + "." + below, data)
      decreases |chain|
    {
      var joined := path + "." + below;
      if parent == null {
        ok := root.AddDirty(joined, data);
      } else {
        ok := parent.AddDirty(joined, data);
        JoinAppend(parent.chain, [path]);
        assert Join(parent.chain) + "." + joined == Join(chain) + "." + below;
      }
    }

    /** Save, at any depth, marks the dot-joined path from the root. */
    method Save() returns (ok: bool)
      requires Valid()
      modifies root
      ensures chain != [] && ok == (Join(chain) != "")
      ensures root.dirtyNode == if ok then Mark(old(root.dirtyNode), Join(chain), data) else old(root.dirtyNode)
    {
      if parent == null {
        ok := root.AddDirty(path, data);
      } else {
        ok := parent.AddDirty(path, data);
        JoinAppend(parent.chain, [path]);
      }
    }
  }
}
