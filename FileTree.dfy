/** The directory trees the generator reads and writes, as tables from a
    path (its segments, relative to the directory) to what is stored there. */
module FileTree {

  type Path = seq<string>

  datatype Node = File(content: string) | Dir

  type Tree = map<Path, Node>

  /** The errors a file operation throws here; each aborts the run. */
  datatype FsError = IsADirectory(path: Path) | NotADirectory(path: Path)

  /** Every key names an entry below the directory, never the directory
      itself. */
  predicate Valid(t: Tree) {
    forall p :: p in t ==> |p| > 0
  }

  /** Every directory above an entry is itself an entry, as on a disk: a
      path exists when anything lies below it. */
  predicate HasParents(t: Tree) {
    forall p, i :: p in t && 0 < i < |p| ==> p[..i] in t && t[p[..i]].Dir?
  }

  /** `q` is `p` or lies below it. */
  predicate Under(p: Path, q: Path) {
    |p| <= |q| && q[..|p|] == p
  }

  /** `rm(p, { recursive: true, force: true })`: `p` and everything below it
      go, nothing else changes. */
  function RemoveTree(t: Tree, p: Path): (r: Tree)
    ensures forall q :: q in r <==> q in t && !Under(p, q)
    ensures forall q :: q in r ==> r[q] == t[q]
  {
    map q | q in t && !Under(p, q) :: t[q]
  }

  /** The entries at and below `p`. */
  function Subtree(t: Tree, p: Path): (r: Tree)
    ensures forall q :: q in r <==> q in t && Under(p, q)
    ensures forall q :: q in r ==> r[q] == t[q]
  {
    map q | q in t && Under(p, q) :: t[q]
  }

  /** `readdir(p)` would list nothing. */
  predicate IsEmptyDir(t: Tree, p: Path) {
    forall q :: q in t && Under(p, q) ==> q == p
  }

  /** The names `readdir` lists for the directory itself. */
  function TopLevel(t: Tree): set<string> {
    set p | p in t && |p| > 0 :: p[0]
  }

  /** Writing one entry leaves every other entry as it was. */
  lemma UpdateFrame(t: Tree, p: Path, n: Node)
    ensures forall q :: q != p ==> (q in t[p := n] <==> q in t) && (q in t ==> t[p := n][q] == t[q])
  {
  }

  /** Removing a whole subtree keeps every remaining entry's parents. */
  lemma RemoveTreeHasParents(t: Tree, p: Path)
    requires HasParents(t)
    ensures HasParents(RemoveTree(t, p))
  {
    var r := RemoveTree(t, p);
    forall q, i | q in r && 0 < i < |q| ensures q[..i] in r && r[q[..i]].Dir? {
      assert q[..i] in t;
    }
  }

  /** Removing a file, which has nothing below it, keeps the shape. */
  lemma RemoveFileHasParents(t: Tree, p: Path)
    requires HasParents(t) && p in t && t[p].File?
    ensures HasParents(t - {p})
  {
  }

  /** Writing a top-level entry where there was nothing or a file keeps
      the shape. */
  lemma WriteTopHasParents(t: Tree, p: Path, n: Node)
    requires HasParents(t) && |p| == 1 && (p !in t || t[p].File?)
    ensures HasParents(t[p := n])
  {
    var r := t[p := n];
    forall q, i | q in r && 0 < i < |q| ensures q[..i] in r && r[q[..i]].Dir? {
      assert q != p && q in t;
      assert q[..i] != p;
    }
  }

  /** Replacing the top-level subtree at `p` by the one another well-shaped
      tree holds there keeps the shape. */
  lemma GraftHasParents(t: Tree, source: Tree, p: Path)
    requires HasParents(t) && HasParents(source) && |p| == 1
    ensures HasParents(RemoveTree(t, p) + Subtree(source, p))
  {
    var r := RemoveTree(t, p) + Subtree(source, p);
    forall q, i | q in r && 0 < i < |q| ensures q[..i] in r && r[q[..i]].Dir? {
      assert q[..i][..1] == q[..1];
      if Under(p, q) {
        assert q in source && Under(p, q[..i]);
      } else {
        assert q in t && !Under(p, q[..i]);
      }
    }
  }

  lemma UnderSingleton(e: string, q: Path)
    ensures Under([e], q) <==> |q| > 0 && q[0] == e
  {
  }
}
