/** Making a leaf cgroup with its controllers delegated to it, and removing it again
    (src/cgroup/v2.rs, `Cgroup::create`, `delegate`, `destroy`). The kernel rules are the "Top-down
    Constraint" and the "No Internal Process Constraint" of the cgroup-v2 documentation. */
module CgroupTree {

  /** A path below the mount point; the empty path is the root cgroup. */
  type Path = seq<string>

  type Controllers = set<string>

  const WANTED: Controllers := {"memory", "pids", "cpu", "cpuset", "io"}

  /** The files that the limits of a bundle are written to (src/cgroup/v2.rs, `apply`). */
  const LIMIT_FILES: seq<string> := [
    "memory.max", "memory.low", "memory.swap.max", "cpu.max", "cpu.weight", "cpuset.cpus", "cpuset.mems",
    "pids.max", "io.weight", "io.max"]

  /** A file of a controller is named after it. */
  function ControllerOf(file: string): string {
    if file == "" || file[0] == '.' then "" else [file[0]] + ControllerOf(file[1..])
  }

  /** Every controller with a limit to write is wanted. */
  lemma LimitsHaveTheirControllers(i: nat)
    requires i < |LIMIT_FILES|
    ensures ControllerOf(LIMIT_FILES[i]) in WANTED
  {
    if i < 3 {
      MemoryFile(if i == 0 then "max" else if i == 1 then "low" else "swap.max");
      assert LIMIT_FILES[i] == "memory" + "." + if i == 0 then "max" else if i == 1 then "low" else "swap.max";
    } else if i < 5 {
      NamedAfter("cpu", if i == 3 then "max" else "weight");
      assert LIMIT_FILES[i] == "cpu" + "." + if i == 3 then "max" else "weight";
    } else if i < 7 {
      NamedAfter("cpuset", if i == 5 then "cpus" else "mems");
      assert LIMIT_FILES[i] == "cpuset" + "." + if i == 5 then "cpus" else "mems";
    } else if i == 7 {
      NamedAfter("pids", "max");
      assert LIMIT_FILES[i] == "pids" + "." + "max";
    } else {
      NamedAfter("io", if i == 8 then "weight" else "max");
      assert LIMIT_FILES[i] == "io" + "." + if i == 8 then "weight" else "max";
    }
  }

  lemma MemoryFile(item: string)
    ensures ControllerOf("memory" + "." + item) == "memory"
  {
    NamedAfter("memory", item);
  }

  lemma {:induction false} NamedAfter(controller: string, item: string)
    requires '.' !in controller
    ensures ControllerOf(controller + "." + item) == controller
  {
    if controller == "" {
      assert controller + "." + item == "." + item;
    } else {
      assert (controller + "." + item)[1..] == controller[1..] + "." + item;
      NamedAfter(controller[1..], item);
    }
  }

  /** What a cgroup hands to its children, and whether it has member processes. */
  datatype Node = Node(subtree: Controllers, busy: bool)

  type Tree = map<Path, Node>

  const EMPTY := Node({}, false)

  /** cgroup.controllers: the root's own, or what the parent hands down. */
  function Offered(tree: Tree, root: Controllers, p: Path): Controllers {
    if p == [] then root
    else if p[..|p| - 1] in tree then tree[p[..|p| - 1]].subtree
    else {}
  }

  /** Parents exist, and nothing is handed down that was not offered. */
  ghost predicate WellFormed(tree: Tree, root: Controllers) {
    && [] in tree
    && (forall p :: p in tree && p != [] ==> p[..|p| - 1] in tree)
    && (forall p :: p in tree ==> tree[p].subtree <= Offered(tree, root, p))
  }

  predicate IsPrefix(p: Path, path: Path) {
    |p| <= |path| && p == path[..|p|]
  }

  /** The prefixes of a path up to a length. */
  function Prefixes(path: Path, n: nat): (prefixes: set<Path>)
    requires n <= |path|
    ensures forall p :: p in prefixes <==> IsPrefix(p, path) && |p| <= n
  {
    if n == 0 then {[]} else Prefixes(path, n - 1) + {path[..n]}
  }

  function NodeAt(tree: Tree, p: Path): Node {
    if p in tree then tree[p] else EMPTY
  }

  /** The tree after `made` levels of the path exist and `delegated` of them hand the wanted
      controllers down. */
  function After(tree: Tree, root: Controllers, path: Path, made: nat, delegated: nat): Tree
    requires made <= |path|
  {
    map p | p in tree.Keys + Prefixes(path, made)
      :: if IsPrefix(p, path) && |p| < delegated
         then NodeAt(tree, p).(subtree := NodeAt(tree, p).subtree + WANTED * root)
         else NodeAt(tree, p)
  }

  /** Level `n` of the path can be passed: the cgroup there may hand the wanted controllers down, and
      the next one exists or may be made. */
  ghost predicate Passable(tree: Tree, root: Controllers, refused: set<Path>, path: Path, n: nat)
    requires n < |path|
  {
    && (n > 0 && path[..n] in tree && tree[path[..n]].busy ==> WANTED * root <= tree[path[..n]].subtree)
    && (path[..n + 1] in tree || path[..n + 1] !in refused)
  }

  lemma {:induction false} SubtreeComesFromRoot(tree: Tree, root: Controllers, p: Path)
    requires WellFormed(tree, root) && p in tree
    ensures tree[p].subtree <= root
    decreases |p|
  {
    if p != [] {
      SubtreeComesFromRoot(tree, root, p[..|p| - 1]);
    }
  }

  /** At every level of the walk the wanted controllers on offer are those of the root. */
  lemma OfferedOnTheWay(tree: Tree, root: Controllers, path: Path, n: nat)
    requires WellFormed(tree, root) && n <= |path|
    ensures WANTED * Offered(After(tree, root, path, n, n), root, path[..n]) == WANTED * root
  {
    if n > 0 {
      var up := path[..n - 1];
      var after := After(tree, root, path, n, n);
      assert path[..n][..n - 1] == up;
      assert up in after;
      assert after[up].subtree == NodeAt(tree, up).subtree + WANTED * root;
      if up in tree {
        SubtreeComesFromRoot(tree, root, up);
      }
    }
  }

  // ----- one level

  predicate HasItsDue(tree: Tree, root: Controllers, p: Path)
    requires p in tree
  {
    WANTED * Offered(tree, root, p) <= tree[p].subtree
  }

  predicate MayGrant(tree: Tree, root: Controllers, p: Path)
    requires p in tree
  {
    HasItsDue(tree, root, p) || p == [] || !tree[p].busy
  }

  function Granted(tree: Tree, root: Controllers, p: Path): Tree
    requires p in tree
  {
    tree[p := tree[p].(subtree := tree[p].subtree + WANTED * Offered(tree, root, p))]
  }

  function WithDir(tree: Tree, p: Path): Tree {
    if p in tree then tree else tree[p := EMPTY]
  }

  /** The tree after `n` levels of the loop. */
  function Walked(tree: Tree, root: Controllers, path: Path, n: nat): Tree
    requires n <= |path|
  {
    if n == 0 then tree
    else
      var t := Walked(tree, root, path, n - 1);
      if path[..n - 1] in t then WithDir(Granted(t, root, path[..n - 1]), path[..n]) else t
  }

  /** What level `n` can leave behind when it fails. */
  ghost predicate LeftAt(tree: Tree, root: Controllers, path: Path, n: nat, left: Tree)
    requires n < |path|
  {
    var t := Walked(tree, root, path, n);
    path[..n] in t && (left == t || left == Granted(t, root, path[..n]))
  }

  class Hierarchy {
    const root: Controllers
    const refused: set<Path>      // where mkdir is refused
    var tree: Tree
    var writes: nat               // writes to any cgroup.subtree_control

    ghost predicate Valid()
      reads this
    {
      WellFormed(tree, root)
    }

    constructor (root: Controllers, refused: set<Path>, tree: Tree)
      requires WellFormed(tree, root)
      ensures Valid() && this.root == root && this.refused == refused && this.tree == tree && writes == 0
    {
      this.root, this.refused, this.tree, this.writes := root, refused, tree, 0;
    }

    /** `delegate`: one write that adds what is wanted, on offer and not yet handed down. The kernel
        refuses it in a cgroup other than the root that has processes. */
    method Delegate(p: Path) returns (ok: bool)
      requires p in tree
      modifies this`tree, this`writes
      ensures ok <==> MayGrant(old(tree), root, p)
      ensures tree == if ok then Granted(old(tree), root, p) else old(tree)
      ensures writes == old(writes) + if ok && !HasItsDue(old(tree), root, p) then 1 else 0
    {
      var available := Offered(tree, root, p);
      var enabled := tree[p].subtree;
      var missing := WANTED * available - enabled;
      assert enabled + missing == enabled + WANTED * available;
      if missing == {} {
        assert enabled + missing == enabled;
        return true;
      }
      assert !(WANTED * available <= enabled);
      if p != [] && tree[p].busy {
        return false;
      }
      tree := tree[p := tree[p].(subtree := enabled + missing)];
      writes := writes + 1;
      return true;
    }

    /** One level of the walk: hand down the controllers, then make the next cgroup if it is missing.
        Whatever the outcome, it writes at most once, and not at all where nothing was missing. */
    method Descend(here: Path, next: Path) returns (ok: bool)
      requires here in tree && next != here
      modifies this`tree, this`writes
      ensures ok <==> MayGrant(old(tree), root, here) && (next in old(tree) || next !in refused)
      ensures ok ==> tree == WithDir(Granted(old(tree), root, here), next)
      ensures !ok ==> tree == old(tree) || tree == Granted(old(tree), root, here)
      ensures HasItsDue(old(tree), root, here) ==> writes == old(writes)
    {
      ok := Delegate(here);
      if !ok {
        return;
      }
      if next !in tree {
        if next in refused {
          return false;
        }
        tree := tree[next := EMPTY];
      }
    }

    /** `Cgroup::create`. It succeeds exactly when every level can be passed, and then the tree is the
        old one with the path made and every proper prefix handing the wanted controllers down. A
        failure leaves the levels before it done. Where nothing has to change nothing is written. */
    method Create(path: Path) returns (ok: bool)
      requires Valid()
      modifies this`tree, this`writes
      ensures Valid()
      ensures ok <==> PassableTo(old(tree), root, refused, path, |path|)
      ensures ok ==> tree == After(old(tree), root, path, |path|, |path|)
      ensures !ok ==> HalfMade(old(tree), root, path, tree)
      ensures HasTheWantedTo(old(tree), root, path, |path|) ==> writes == old(writes)
    {
      ok := Walk(path);
      if ok {
        WalkedIsAfter(old(tree), root, path, |path|);
      } else {
        ghost var n :| 0 <= n < |path| && LeftAt(old(tree), root, path, n, tree);
        LeftIsHalfMade(old(tree), root, path, n, tree);
      }
    }

    /** The loop of `create`, level by level. */
    method Walk(path: Path) returns (ok: bool)
      requires Valid()
      modifies this`tree, this`writes
      ensures Valid()
      ensures ok <==> PassableTo(old(tree), root, refused, path, |path|)
      ensures ok ==> tree == Walked(old(tree), root, path, |path|)
      ensures !ok ==> exists n :: 0 <= n < |path| && LeftAt(old(tree), root, path, n, tree)
      ensures HasTheWantedTo(old(tree), root, path, |path|) ==> writes == old(writes)
    {
      ghost var start := tree;
      for n := 0 to |path|
        invariant Valid()
        invariant tree == Walked(start, root, path, n)
        invariant PassableTo(start, root, refused, path, n)
        invariant HasTheWantedTo(start, root, path, |path|) ==> writes == old(writes)
      {
        LevelOfWalk(start, root, refused, path, n);
        WalkIsWellFormed(start, root, path, n);
        UpToOneMore(start, root, refused, path, n);
        ok := Descend(path[..n], path[..n + 1]);
        if !ok {
          assert LeftAt(start, root, path, n, tree);
          return;
        }
      }
      ok := true;
    }

    /** `Cgroup::destroy`: remove the leaf, retrying while it is busy, and then try its parent unless
        that is the mount point. Only the leaf's removal decides the outcome. */
    method Destroy(path: Path) returns (ok: bool)
      requires Valid()
      modifies this`tree
      ensures Valid()
      ensures ok <==> Removable(old(tree), path)
      ensures tree == if ok then Destroyed(old(tree), path) else old(tree)
    {
      ok := RemoveDir(path);
      if ok && path[..|path| - 1] != [] {
        var _ := RemoveDir(path[..|path| - 1]);
      }
    }

    /** The kernel's rmdir on a cgroup. */
    method RemoveDir(path: Path) returns (ok: bool)
      requires Valid()
      modifies this`tree
      ensures Valid()
      ensures ok <==> Removable(old(tree), path)
      ensures tree == if ok then old(tree) - {path} else old(tree)
    {
      if path !in tree || path == [] || tree[path].busy || exists q | q in tree :: q != [] && q[..|q| - 1] == path {
        return false;
      }
      RemovingKeepsWellFormed(tree, root, path);
      tree := tree - {path};
      ok := true;
    }
  }

  ghost predicate PassableTo(tree: Tree, root: Controllers, refused: set<Path>, path: Path, n: nat)
    requires n <= |path|
  {
    forall m :: 0 <= m < n ==> Passable(tree, root, refused, path, m)
  }

  ghost predicate HasTheWanted(tree: Tree, root: Controllers, path: Path, n: nat)
    requires n <= |path|
  {
    WANTED * root <= NodeAt(tree, path[..n]).subtree
  }

  ghost predicate HasTheWantedTo(tree: Tree, root: Controllers, path: Path, n: nat)
    requires n <= |path|
  {
    forall m :: 0 <= m < n ==> HasTheWanted(tree, root, path, m)
  }

  /** What a failed walk leaves: some levels made, with or without the last one handing down. */
  ghost predicate HalfMade(tree: Tree, root: Controllers, path: Path, left: Tree) {
    exists n :: 0 <= n < |path| &&
      (left == After(tree, root, path, n, n) || left == After(tree, root, path, n, n + 1))
  }

  /** The loop computes what `After` describes. */
  lemma {:induction false} WalkedIsAfter(tree: Tree, root: Controllers, path: Path, n: nat)
    requires WellFormed(tree, root) && n <= |path|
    ensures Walked(tree, root, path, n) == After(tree, root, path, n, n)
  {
    if n == 0 {
      AfterNothing(tree, root, path);
    } else {
      WalkedIsAfter(tree, root, path, n - 1);
      AfterDelegating(tree, root, path, n - 1);
      AfterMaking(tree, root, path, n - 1);
    }
  }

  lemma HereOnWalk(tree: Tree, root: Controllers, path: Path, n: nat)
    requires WellFormed(tree, root) && n < |path|
    ensures var t, here := Walked(tree, root, path, n), path[..n];
            && here in t && t[here] == NodeAt(tree, here)
            && WANTED * Offered(t, root, here) == WANTED * root
  {
    WalkedIsAfter(tree, root, path, n);
    AfterDelegating(tree, root, path, n);
  }

  lemma NextOnWalk(tree: Tree, root: Controllers, path: Path, n: nat)
    requires WellFormed(tree, root) && n < |path|
    ensures path[..n + 1] in Walked(tree, root, path, n) <==> path[..n + 1] in tree
  {
    WalkedIsAfter(tree, root, path, n);
    assert path[..n + 1] !in Prefixes(path, n);
  }

  lemma WalkIsWellFormed(tree: Tree, root: Controllers, path: Path, n: nat)
    requires WellFormed(tree, root) && n < |path|
    ensures path[..n] in Walked(tree, root, path, n)
    ensures WellFormed(Granted(Walked(tree, root, path, n), root, path[..n]), root)
    ensures WellFormed(Walked(tree, root, path, n + 1), root)
  {
    WalkedIsAfter(tree, root, path, n);
    WalkedIsAfter(tree, root, path, n + 1);
    AfterDelegating(tree, root, path, n);
    AfterIsWellFormed(tree, root, path, n, n + 1);
    AfterIsWellFormed(tree, root, path, n + 1, n + 1);
  }

  /** What `Descend` finds at level `n`. */
  lemma LevelOfWalk(tree: Tree, root: Controllers, refused: set<Path>, path: Path, n: nat)
    requires WellFormed(tree, root) && n < |path|
    ensures var t, here := Walked(tree, root, path, n), path[..n];
            && here in t
            && (Passable(tree, root, refused, path, n)
                <==> MayGrant(t, root, here) && (path[..n + 1] in t || path[..n + 1] !in refused))
            && (HasTheWanted(tree, root, path, n) ==> HasItsDue(t, root, here))
  {
    HereOnWalk(tree, root, path, n);
    NextOnWalk(tree, root, path, n);
  }

  lemma LeftIsHalfMade(tree: Tree, root: Controllers, path: Path, n: nat, left: Tree)
    requires WellFormed(tree, root) && n < |path| && LeftAt(tree, root, path, n, left)
    ensures HalfMade(tree, root, path, left)
  {
    WalkedIsAfter(tree, root, path, n);
    AfterDelegating(tree, root, path, n);
  }

  lemma UpToOneMore(tree: Tree, root: Controllers, refused: set<Path>, path: Path, n: nat)
    requires n < |path|
    ensures PassableTo(tree, root, refused, path, n + 1)
            <==> PassableTo(tree, root, refused, path, n) && Passable(tree, root, refused, path, n)
    ensures PassableTo(tree, root, refused, path, |path|) ==> Passable(tree, root, refused, path, n)
    ensures HasTheWantedTo(tree, root, path, |path|) ==> HasTheWanted(tree, root, path, n)
  {
  }

  lemma AfterNothing(tree: Tree, root: Controllers, path: Path)
    requires WellFormed(tree, root)
    ensures After(tree, root, path, 0, 0) == tree
  {
  }

  /** What `Delegate` is given at level `n`, and what it makes of it. */
  lemma AfterDelegating(tree: Tree, root: Controllers, path: Path, n: nat)
    requires WellFormed(tree, root) && n < |path|
    ensures var here := path[..n];
            var before := After(tree, root, path, n, n);
            var due := WANTED * Offered(before, root, here);
            && here in before
            && before[here] == NodeAt(tree, here)
            && due == WANTED * root
            && After(tree, root, path, n, n + 1)
               == before[here := before[here].(subtree := before[here].subtree + due)]
  {
    OfferedOnTheWay(tree, root, path, n);
    DelegatingChangesOne(tree, root, path, n);
  }

  lemma DelegatingChangesOne(tree: Tree, root: Controllers, path: Path, n: nat)
    requires n < |path|
    ensures var here := path[..n];
            var before := After(tree, root, path, n, n);
            && here in before
            && before[here] == NodeAt(tree, here)
            && After(tree, root, path, n, n + 1)
               == before[here := before[here].(subtree := before[here].subtree + WANTED * root)]
  {
    var before, after := After(tree, root, path, n, n), After(tree, root, path, n, n + 1);
    assert path[..n] in Prefixes(path, n);
    forall p | p in before && p != path[..n]
      ensures p in after && after[p] == before[p]
    {
      assert IsPrefix(p, path) && |p| < n + 1 ==> |p| < n;
    }
  }

  lemma AfterMaking(tree: Tree, root: Controllers, path: Path, n: nat)
    requires WellFormed(tree, root) && n < |path|
    ensures var next := path[..n + 1];
            var before := After(tree, root, path, n, n + 1);
            && After(tree, root, path, n + 1, n + 1)
               == (if next in before then before else before[next := EMPTY])
            && (next in before <==> next in tree)
  {
    MakingAddsOne(tree, root, path, n);
    var before, after := After(tree, root, path, n, n + 1), After(tree, root, path, n + 1, n + 1);
    forall p | p in before
      ensures after[p] == before[p]
    {
    }
  }

  lemma MakingAddsOne(tree: Tree, root: Controllers, path: Path, n: nat)
    requires n < |path|
    ensures var next := path[..n + 1];
            var before, after := After(tree, root, path, n, n + 1), After(tree, root, path, n + 1, n + 1);
            && after.Keys == before.Keys + {next}
            && after[next] == NodeAt(tree, next)
            && (next in before <==> next in tree)
  {
    assert Prefixes(path, n + 1) == Prefixes(path, n) + {path[..n + 1]};
    assert path[..n + 1] !in Prefixes(path, n);
  }

  /** Every state of the walk is a well-formed tree. */
  lemma AfterIsWellFormed(tree: Tree, root: Controllers, path: Path, made: nat, delegated: nat)
    requires WellFormed(tree, root) && made <= |path| && made <= delegated <= made + 1
    ensures WellFormed(After(tree, root, path, made, delegated), root)
  {
    var after := After(tree, root, path, made, delegated);
    forall p | p in after
      ensures p != [] ==> p[..|p| - 1] in after
      ensures after[p].subtree <= Offered(after, root, p)
    {
      AfterIsWellFormedAt(tree, root, path, made, delegated, p);
    }
  }

  lemma AfterIsWellFormedAt(tree: Tree, root: Controllers, path: Path, made: nat, delegated: nat, p: Path)
    requires WellFormed(tree, root) && made <= |path| && made <= delegated <= made + 1
    requires p in After(tree, root, path, made, delegated)
    ensures var after := After(tree, root, path, made, delegated);
            && (p != [] ==> p[..|p| - 1] in after)
            && after[p].subtree <= Offered(after, root, p)
  {
    var after := After(tree, root, path, made, delegated);
    if p == [] {
      SubtreeComesFromRoot(tree, root, p);
    } else {
      ParentOf(tree, root, path, made, p);
      var up := p[..|p| - 1];
      assert up in after;
      assert NodeAt(tree, p).subtree <= NodeAt(tree, up).subtree <= after[up].subtree;
      if IsPrefix(p, path) && |p| < delegated {
        assert after[up].subtree == NodeAt(tree, up).subtree + WANTED * root;
      }
    }
  }

  lemma ParentOf(tree: Tree, root: Controllers, path: Path, made: nat, p: Path)
    requires WellFormed(tree, root) && made <= |path| && p != []
    requires p in tree.Keys + Prefixes(path, made)
    ensures var up := p[..|p| - 1];
            && up in tree.Keys + Prefixes(path, made)
            && NodeAt(tree, p).subtree <= NodeAt(tree, up).subtree
            && (IsPrefix(p, path) ==> IsPrefix(up, path))
  {
    var up := p[..|p| - 1];
    if IsPrefix(p, path) {
      assert up == path[..|up|];
    }
    if p in tree {
      assert up in tree;
    }
  }

  // --- what a finished walk means ---------------------------------------------------------------

  /** The leaf is offered every wanted controller the root has. */
  lemma LeafIsOfferedTheWanted(tree: Tree, root: Controllers, path: Path)
    requires WellFormed(tree, root) && path != []
    ensures path in After(tree, root, path, |path|, |path|)
    ensures WANTED * Offered(After(tree, root, path, |path|, |path|), root, path) == WANTED * root
  {
    assert path[..|path|] == path;
    OfferedOnTheWay(tree, root, path, |path|);
  }

  /** Nothing is taken away: no cgroup disappears and no controller is disabled anywhere. The leaf's
      own subtree_control and every cgroup off the path stay as they were, and so does every member
      process. New cgroups are those of the path. */
  lemma WalkOnlyAdds(tree: Tree, root: Controllers, path: Path, p: Path)
    requires WellFormed(tree, root)
    ensures var after := After(tree, root, path, |path|, |path|);
            && (p in tree ==> p in after && tree[p].subtree <= after[p].subtree && tree[p].busy == after[p].busy)
            && (p in tree && (p == path || !IsPrefix(p, path)) ==> after[p] == tree[p])
            && (p in after && p !in tree ==> IsPrefix(p, path) && !after[p].busy)
            && (path !in tree ==> after[path].subtree == {})
            && (p in after ==> after[p].subtree - NodeAt(tree, p).subtree <= WANTED * root)
  {
    assert path[..|path|] == path;
  }

  /** A second create finds every level passable and done: by `Create` it writes nothing. */
  lemma SecondWalkWritesNothing(tree: Tree, root: Controllers, refused: set<Path>, path: Path)
    requires WellFormed(tree, root)
    ensures var after := After(tree, root, path, |path|, |path|);
            PassableTo(after, root, refused, path, |path|) && HasTheWantedTo(after, root, path, |path|)
  {
    var after := After(tree, root, path, |path|, |path|);
    forall n | 0 <= n < |path|
      ensures Passable(after, root, refused, path, n) && HasTheWanted(after, root, path, n)
    {
      assert IsPrefix(path[..n], path) && path[..n] in Prefixes(path, |path|);
      assert path[..n + 1] in Prefixes(path, |path|);
    }
  }

  /** And it leaves the tree as it found it. */
  lemma SecondWalkChangesNothing(tree: Tree, root: Controllers, path: Path)
    requires WellFormed(tree, root)
    ensures var after := After(tree, root, path, |path|, |path|);
            After(after, root, path, |path|, |path|) == after
  {
    var after := After(tree, root, path, |path|, |path|);
    var again := After(after, root, path, |path|, |path|);
    SameKeys(tree, root, path);
    forall p | p in after
      ensures again[p] == after[p]
    {
      NodeIsSettled(tree, root, path, p);
    }
    SameTree(again, after);
  }

  lemma SameKeys(tree: Tree, root: Controllers, path: Path)
    ensures var after := After(tree, root, path, |path|, |path|);
            After(after, root, path, |path|, |path|).Keys == after.Keys
  {
  }

  lemma SameTree(a: Tree, b: Tree)
    requires a.Keys == b.Keys && forall p :: p in a ==> a[p] == b[p]
    ensures a == b
  {
  }

  lemma NodeIsSettled(tree: Tree, root: Controllers, path: Path, p: Path)
    requires p in After(tree, root, path, |path|, |path|)
    ensures var node := After(tree, root, path, |path|, |path|)[p];
            IsPrefix(p, path) && |p| < |path| ==> node.(subtree := node.subtree + WANTED * root) == node
  {
    var had := NodeAt(tree, p).subtree;
    assert (had + WANTED * root) + WANTED * root == had + WANTED * root;
  }

  // --- removing the leaf ------------------------------------------------------------------------

  ghost predicate Childless(tree: Tree, p: Path) {
    forall q :: q in tree && q != [] ==> q[..|q| - 1] != p
  }

  /** Where the kernel lets rmdir succeed. */
  ghost predicate Removable(tree: Tree, p: Path) {
    p in tree && p != [] && !tree[p].busy && Childless(tree, p)
  }

  /** What `destroy` leaves: without the leaf, and without its parent if that can go too. The second
      rmdir's outcome is ignored and never aimed at the mount point. */
  ghost function Destroyed(tree: Tree, path: Path): Tree
    requires path != []
  {
    var rest := tree - {path};
    var parent := path[..|path| - 1];
    if Removable(rest, parent) then rest - {parent} else rest
  }

  /** Destroying what create just made always succeeds and removes the leaf. Every other cgroup stays
      as create left it but the parent, which goes exactly when it is not the root, has no members and
      had no children before: that it existed before create does not save it. */
  lemma DestroyAfterCreate(tree: Tree, root: Controllers, path: Path)
    requires WellFormed(tree, root) && path != [] && path !in tree
    ensures var after := After(tree, root, path, |path|, |path|);
            && Removable(after, path)
            && Destroyed(after, path) == after - (if ParentGoes(tree, path) then {path, path[..|path| - 1]} else {path})
            && WellFormed(Destroyed(after, path), root)
  {
    var after := After(tree, root, path, |path|, |path|);
    var parent := path[..|path| - 1];
    AfterIsWellFormed(tree, root, path, |path|, |path|);
    NewLeafIsRemovable(tree, root, path);
    RemovingKeepsWellFormed(after, root, path);
    ParentGoesWhenOtherwiseEmpty(tree, root, path);
    DestroyedIs(after, path);
    if Removable(after - {path}, parent) {
      RemovingKeepsWellFormed(after - {path}, root, parent);
    }
  }

  lemma DestroyedIs(tree: Tree, path: Path)
    requires path != []
    ensures var parent := path[..|path| - 1];
            Destroyed(tree, path) == tree - if Removable(tree - {path}, parent) then {path, parent} else {path}
  {
    var parent := path[..|path| - 1];
    assert (tree - {path}) - {parent} == tree - {path, parent};
  }

  ghost predicate ParentGoes(tree: Tree, path: Path)
    requires path != []
  {
    var parent := path[..|path| - 1];
    parent != [] && !NodeAt(tree, parent).busy && Childless(tree, parent)
  }

  lemma NewLeafIsRemovable(tree: Tree, root: Controllers, path: Path)
    requires WellFormed(tree, root) && path != [] && path !in tree
    ensures Removable(After(tree, root, path, |path|, |path|), path)
  {
    var after := After(tree, root, path, |path|, |path|);
    assert path in Prefixes(path, |path|);
    forall q | q in after && q != []
      ensures q[..|q| - 1] != path
    {
    }
  }

  /** Besides the leaf, the walk gives the parent no child it did not have. */
  lemma WalkAddsOneChild(tree: Tree, root: Controllers, path: Path, q: Path)
    requires WellFormed(tree, root) && path != [] && path !in tree
    requires q != [] && q[..|q| - 1] == path[..|path| - 1]
    ensures q in After(tree, root, path, |path|, |path|) - {path} <==> q in tree
  {
    if IsPrefix(q, path) {
      assert |q| == |path|;
      assert q == path;
    }
  }

  lemma ParentGoesWhenOtherwiseEmpty(tree: Tree, root: Controllers, path: Path)
    requires WellFormed(tree, root) && path != [] && path !in tree
    ensures Removable(After(tree, root, path, |path|, |path|) - {path}, path[..|path| - 1])
       <==> ParentGoes(tree, path)
  {
    var rest := After(tree, root, path, |path|, |path|) - {path};
    var parent := path[..|path| - 1];
    WalkOnlyAdds(tree, root, path, parent);
    forall q | q != [] && q[..|q| - 1] == parent
      ensures q in rest <==> q in tree
    {
      WalkAddsOneChild(tree, root, path, q);
    }
    assert parent in rest && rest[parent].busy == NodeAt(tree, parent).busy by {
      assert parent in Prefixes(path, |path|);
    }
    SameChildren(rest, tree, parent);
  }

  lemma SameChildren(one: Tree, other: Tree, p: Path)
    requires forall q :: q != [] && q[..|q| - 1] == p ==> (q in one <==> q in other)
    ensures Childless(one, p) <==> Childless(other, p)
  {
  }

  lemma RemovingKeepsWellFormed(tree: Tree, root: Controllers, p: Path)
    requires WellFormed(tree, root) && Removable(tree, p)
    ensures WellFormed(tree - {p}, root)
  {
  }
}
