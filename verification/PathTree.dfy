/**
  Resolving a path over a tree with symbolic links: the longest existing part
  is made canonical, and what does not exist yet is kept as it was written.
 */
module PathTree {

  /** A path from the root, component by component. */
  type Path = seq<string>

  /** A link's target may climb with ".." and stay with "."; it starts at the root or at the link's own directory. */
  datatype Node = Dir | File | Link(absolute: bool, target: seq<string>)

  type Tree = map<Path, Node>

  predicate Component(c: string) {
    c != "" && c != "." && c != ".." && '/' !in c
  }

  predicate Components(p: seq<string>) {
    forall c | c in p :: Component(c)
  }

  predicate IsDir(tree: Tree, p: Path) {
    p in tree && tree[p] == Dir
  }

  /** Everything in a tree lies in directories up to the root. */
  ghost predicate WellRooted(tree: Tree) {
    && IsDir(tree, [])
    && (forall p | p in tree && p != [] :: IsDir(tree, p[..|p| - 1]))
    && (forall p | p in tree :: Components(p))
  }

  // ---------------------------------------------------------------- walking

  datatype Walk = At(path: Path) | Missing | NotDirectory | TooManyLinks

  /** The walk of the kernel and of EvalSymlinks, with a bound on the links it follows. */
  function Follow(tree: Tree, cwd: Path, rest: seq<string>, links: nat): Walk
    decreases links, |rest|
  {
    if rest == [] then At(cwd)
    else if rest[0] == "." || rest[0] == "" then Follow(tree, cwd, rest[1..], links)
    else if rest[0] == ".." then Follow(tree, if cwd == [] then [] else cwd[..|cwd| - 1], rest[1..], links)
    else
      var p := cwd + [rest[0]];
      if p !in tree then Missing
      else
        match tree[p]
        case Dir => Follow(tree, p, rest[1..], links)
        case File => if |rest| == 1 then At(p) else NotDirectory
        case Link(absolute, target) =>
          if links == 0 then TooManyLinks
          else Follow(tree, if absolute then [] else cwd, target + rest[1..], links - 1)
  }

  const LSTAT_LINKS := 40
  const EVAL_LINKS := 255

  datatype Stat = Found | NotExist | Failed

  /** lstat follows every component but the last. */
  function Lstat(tree: Tree, p: Path): Stat {
    if p == [] then Found
    else
      match Follow(tree, [], p[..|p| - 1], LSTAT_LINKS)
      case At(d) => if !IsDir(tree, d) then Failed else if d + [p[|p| - 1]] in tree then Found else NotExist
      case Missing => NotExist
      case _ => Failed
  }

  datatype Resolution = Resolved(path: Path) | Unresolved

  /** What the loop computes: canonicalise what exists, and append what does not. */
  function Resolve(tree: Tree, p: Path): Resolution {
    match Lstat(tree, p)
    case Found =>
      (match Follow(tree, [], p, EVAL_LINKS)
       case At(q) => Resolved(q)
       case _ => Unresolved)
    case NotExist =>
      if p == [] then Unresolved
      else
        (match Resolve(tree, p[..|p| - 1])
         case Resolved(q) => Resolved(q + [p[|p| - 1]])
         case Unresolved => Unresolved)
    case Failed => Unresolved
  }

  function Reversed(s: seq<string>): seq<string> {
    if s == [] then [] else Reversed(s[1..]) + [s[0]]
  }

  function Append(r: Resolution, tail: seq<string>): Resolution {
    match r
    case Resolved(q) => Resolved(q + tail)
    case Unresolved => Unresolved
  }

  lemma AppendTwice(r: Resolution, base: string, tail: seq<string>)
    ensures Append(Append(r, [base]), tail) == Append(r, [base] + tail)
  {
    if r.Resolved? {
      assert r.path + [base] + tail == r.path + ([base] + tail);
    }
  }

  lemma ResolveMissing(tree: Tree, p: Path)
    requires p != [] && Lstat(tree, p) == NotExist
    ensures Resolve(tree, p) == Append(Resolve(tree, p[..|p| - 1]), [p[|p| - 1]])
  {
    hide Lstat;
    hide Follow;
  }

  /** Leaving a missing name behind does not change what is being computed. */
  lemma LeaveBehind(tree: Tree, current: Path, missing: seq<string>)
    requires current != [] && Lstat(tree, current) == NotExist
    ensures Append(Resolve(tree, current), Reversed(missing)) ==
            Append(Resolve(tree, current[..|current| - 1]), Reversed(missing + [current[|current| - 1]]))
  {
    var base := current[|current| - 1];
    ReversedLast(missing + [base]);
    assert (missing + [base])[..|missing|] == missing && (missing + [base])[|missing|] == base;
    hide Reversed;
    ResolveMissing(tree, current);
    hide Lstat;
    hide Follow;
    hide Resolve;
    hide Append;
    AppendTwice(Resolve(tree, current[..|current| - 1]), base, Reversed(missing));
  }

  /** resolvePath: climbs to the first ancestor that exists, remembering the names it leaves behind. */
  method ResolvePath(tree: Tree, path: Path) returns (r: Resolution)
    ensures r == Resolve(tree, path)
  {
    hide Follow;
    hide Lstat;
    var current := path;
    var missing: seq<string> := [];
    while true
      invariant Resolve(tree, path) == Append(Resolve(tree, current), Reversed(missing))
      decreases |current|
    {
      var stat := Lstat(tree, current);
      if stat == Found {
        var walk := Follow(tree, [], current, EVAL_LINKS);
        if !walk.At? {
          return Unresolved;
        }
        var resolved := AppendReversed(walk.path, missing);
        return Resolved(resolved);
      }
      if stat != NotExist || current == [] {
        return Unresolved;
      }
      LeaveBehind(tree, current, missing);
      missing := missing + [current[|current| - 1]];
      current := current[..|current| - 1];
    }
  }

  /** The names left behind are joined on again, the last one first. */
  method AppendReversed(base: Path, missing: seq<string>) returns (resolved: Path)
    ensures resolved == base + Reversed(missing)
  {
    resolved := base;
    var i := |missing|;
    assert missing[..i] == missing;
    while i > 0
      invariant 0 <= i <= |missing|
      invariant resolved + Reversed(missing[..i]) == base + Reversed(missing)
    {
      i := i - 1;
      ReversedLast(missing[..i + 1]);
      assert missing[..i + 1][..i] == missing[..i];
      resolved := resolved + [missing[i]];
    }
  }

  lemma {:induction false} ReversedLast(s: seq<string>)
    requires s != []
    ensures Reversed(s) == [s[|s| - 1]] + Reversed(s[..|s| - 1])
  {
    if |s| > 1 {
      ReversedLast(s[1..]);
      assert s[1..][..|s| - 2] == s[..|s| - 1][1..];
    }
  }

  // ---------------------------------------------------------------- walks end in the tree

  lemma {:induction false} FollowEndsInTree(tree: Tree, cwd: Path, rest: seq<string>, links: nat)
    requires WellRooted(tree) && IsDir(tree, cwd)
    ensures var w := Follow(tree, cwd, rest, links); w.At? ==> w.path in tree && !tree[w.path].Link?
    decreases links, |rest|
  {
    if rest != [] {
      if rest[0] == "." || rest[0] == "" {
        FollowEndsInTree(tree, cwd, rest[1..], links);
      } else if rest[0] == ".." {
        FollowEndsInTree(tree, if cwd == [] then [] else cwd[..|cwd| - 1], rest[1..], links);
      } else if cwd + [rest[0]] in tree {
        var p := cwd + [rest[0]];
        match tree[p]
        case Dir => FollowEndsInTree(tree, p, rest[1..], links);
        case File =>
        case Link(absolute, target) =>
          if links > 0 {
            FollowEndsInTree(tree, if absolute then [] else cwd, target + rest[1..], links - 1);
          }
      }
    }
  }

  /** A walk that stays within a smaller bound on links is the same walk under a larger one. */
  lemma {:induction false} MoreLinksSameWalk(tree: Tree, cwd: Path, rest: seq<string>, few: nat, many: nat)
    requires few <= many
    ensures Follow(tree, cwd, rest, few) != TooManyLinks ==>
              Follow(tree, cwd, rest, many) == Follow(tree, cwd, rest, few)
    decreases few, |rest|
  {
    if rest != [] {
      if rest[0] == "." || rest[0] == "" {
        MoreLinksSameWalk(tree, cwd, rest[1..], few, many);
      } else if rest[0] == ".." {
        MoreLinksSameWalk(tree, if cwd == [] then [] else cwd[..|cwd| - 1], rest[1..], few, many);
      } else if cwd + [rest[0]] in tree {
        var p := cwd + [rest[0]];
        match tree[p]
        case Dir => MoreLinksSameWalk(tree, p, rest[1..], few, many);
        case File =>
        case Link(absolute, target) =>
          if few > 0 {
            MoreLinksSameWalk(tree, if absolute then [] else cwd, target + rest[1..], few - 1, many - 1);
          }
      }
    }
  }

  lemma PrefixIsDir(tree: Tree, p: Path, k: nat)
    requires WellRooted(tree) && p in tree && k < |p|
    ensures IsDir(tree, p[..k])
    decreases |p|
  {
    if k < |p| - 1 {
      PrefixIsDir(tree, p[..|p| - 1], k);
      assert p[..|p| - 1][..k] == p[..k];
    }
  }

  /** A path of the tree that is no link is where its own walk ends. */
  lemma {:induction false} WalkOfCanonical(tree: Tree, p: Path, k: nat, links: nat)
    requires WellRooted(tree) && p in tree && !tree[p].Link? && k <= |p|
    ensures Follow(tree, p[..k], p[k..], links) == At(p)
    decreases |p| - k
  {
    if k < |p| {
      assert p[k] in p;
      assert p[..k] + [p[k]] == p[..k + 1];
      if k + 1 < |p| {
        PrefixIsDir(tree, p, k + 1);
        WalkOfCanonical(tree, p, k + 1, links);
        assert p[k..][1..] == p[k + 1..];
      } else {
        assert p[..k + 1] == p && p[k..][1..] == [];
        WalkOfCanonical(tree, p, k + 1, links);
      }
    } else {
      assert p[..k] == p && p[k..] == [];
    }
  }

  /** A walk below a directory into a name that is not there finds nothing. */
  lemma {:induction false} WalkIntoNothing(tree: Tree, p: Path, j: nat, k: nat, links: nat)
    requires WellRooted(tree) && Components(p) && j <= k < |p|
    requires IsDir(tree, p[..k]) && p[..k + 1] !in tree
    ensures Follow(tree, p[..j], p[j..], links) == Missing
    decreases k - j
  {
    assert p[j] in p;
    assert p[..j] + [p[j]] == p[..j + 1];
    if j < k {
      if j + 1 < k {
        PrefixIsDir(tree, p[..k], j + 1);
        assert p[..k][..j + 1] == p[..j + 1];
      }
      WalkIntoNothing(tree, p, j + 1, k, links);
      assert p[j..][1..] == p[j + 1..];
    }
  }

  // ---------------------------------------------------------------- resolved paths

  /** The first `k` components exist and are no link, and the next one does not exist. */
  ghost predicate SplitAt(tree: Tree, p: Path, k: nat) {
    && k <= |p| && Components(p)
    && p[..k] in tree && !tree[p[..k]].Link?
    && (k < |p| ==> IsDir(tree, p[..k]) && p[..k + 1] !in tree)
  }

  /** Every resolved path is a canonical existing part followed by names that do not exist. */
  lemma {:induction false} ResolvedShape(tree: Tree, path: Path) returns (k: nat)
    requires WellRooted(tree) && Components(path) && Resolve(tree, path).Resolved?
    ensures SplitAt(tree, Resolve(tree, path).path, k)
    ensures k == |Resolve(tree, path).path| ==> Follow(tree, [], path, EVAL_LINKS) == At(Resolve(tree, path).path)
  {
    var p := Resolve(tree, path).path;
    if Lstat(tree, path) == Found {
      FollowEndsInTree(tree, [], path, EVAL_LINKS);
      k := |p|;
      assert p[..k] == p;
    } else {
      var parent, last := path[..|path| - 1], path[|path| - 1];
      var q := Resolve(tree, parent).path;
      assert last in path;
      k := ResolvedShape(tree, parent);
      assert p == q + [last] && p[..k] == q[..k];
      if k == |q| {
        MoreLinksSameWalk(tree, [], parent, LSTAT_LINKS, EVAL_LINKS);
        assert Follow(tree, [], parent, LSTAT_LINKS) == At(q);
        assert q[..k] == q && p[..k + 1] == p;
      } else {
        assert p[..k + 1] == q[..k + 1];
      }
    }
  }

  lemma LstatOfExisting(tree: Tree, p: Path)
    requires WellRooted(tree) && p in tree
    ensures Lstat(tree, p) == Found
  {
    if p != [] {
      var parent := p[..|p| - 1];
      WalkOfCanonical(tree, parent, 0, LSTAT_LINKS);
      assert parent[..0] == [] && parent[0..] == parent;
      assert parent + [p[|p| - 1]] == p;
    }
  }

  lemma LstatOfMissing(tree: Tree, p: Path, k: nat)
    requires WellRooted(tree) && SplitAt(tree, p, k) && k < |p|
    ensures Lstat(tree, p) == NotExist
  {
    var parent := p[..|p| - 1];
    assert parent[..0] == [] && parent[0..] == parent && parent[..k] == p[..k];
    if k == |parent| {
      assert parent == p[..k] && p[..k + 1] == p;
      WalkOfCanonical(tree, parent, 0, LSTAT_LINKS);
      assert parent + [p[|p| - 1]] == p;
      hide Follow;
      hide WellRooted;
    } else {
      assert parent[..k + 1] == p[..k + 1];
      WalkIntoNothing(tree, parent, 0, k, LSTAT_LINKS);
      hide Follow;
      hide WellRooted;
    }
  }

  lemma {:induction false} SplitResolvesToItself(tree: Tree, p: Path, k: nat)
    requires WellRooted(tree) && SplitAt(tree, p, k)
    ensures Resolve(tree, p) == Resolved(p)
    decreases |p|
  {
    hide Lstat;
    hide Follow;
    if k == |p| {
      assert p[..k] == p && p[..0] == [] && p[0..] == p;
      WalkOfCanonical(tree, p, 0, EVAL_LINKS);
      LstatOfExisting(tree, p);
    } else {
      var parent := p[..|p| - 1];
      LstatOfMissing(tree, p, k);
      assert parent[..k] == p[..k] && (k < |parent| ==> parent[..k + 1] == p[..k + 1]);
      assert parent + [p[|p| - 1]] == p;
      SplitResolvesToItself(tree, parent, k);
    }
  }

  /** Canonicalisation is idempotent: resolving what was resolved changes nothing. */
  lemma ResolveIsIdempotent(tree: Tree, path: Path)
    requires WellRooted(tree) && Components(path) && Resolve(tree, path).Resolved?
    ensures Resolve(tree, Resolve(tree, path).path) == Resolve(tree, path)
  {
    var k := ResolvedShape(tree, path);
    SplitResolvesToItself(tree, Resolve(tree, path).path, k);
  }

  /** No part of a resolved path that exists is a symbolic link. */
  lemma NoLinkInResolved(tree: Tree, path: Path, j: nat)
    requires WellRooted(tree) && Components(path) && Resolve(tree, path).Resolved?
    requires j <= |Resolve(tree, path).path| && Resolve(tree, path).path[..j] in tree
    ensures !tree[Resolve(tree, path).path[..j]].Link?
  {
    var p := Resolve(tree, path).path;
    var k := ResolvedShape(tree, path);
    if j < k {
      PrefixIsDir(tree, p[..k], j);
      assert p[..k][..j] == p[..j];
    }
    OnlyUpTo(tree, p, k, j);
    assert p[..|p|] == p;
  }

  lemma OnlyUpTo(tree: Tree, p: Path, k: nat, j: nat)
    requires WellRooted(tree) && SplitAt(tree, p, k) && j <= |p| && p[..j] in tree
    ensures j <= k
  {
    if j > k {
      NothingBeyond(tree, p, k, j);
    }
  }

  lemma {:induction false} NothingBeyond(tree: Tree, p: Path, k: nat, j: nat)
    requires WellRooted(tree) && k < j <= |p| && p[..k + 1] !in tree
    ensures p[..j] !in tree
    decreases j
  {
    if k + 1 < j {
      NothingBeyond(tree, p, k, j - 1);
      assert p[..j][..j - 1] == p[..j - 1];
    }
  }

  lemma ResolvedComponents(tree: Tree, path: Path)
    requires WellRooted(tree) && Components(path) && Resolve(tree, path).Resolved?
    ensures Components(Resolve(tree, path).path)
  {
    var k := ResolvedShape(tree, path);
  }
}
