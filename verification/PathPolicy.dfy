/**
  Which paths the policy accepts: the text of a path, the roots it has to lie
  in, and what asking again with the answer gives.
 */
module PathPolicy {
  import opened Options
  import opened Text
  import opened PathTree

  // ---------------------------------------------------------------- text

  /** "/" for the root, and "/a/b" below it. */
  function Render(p: Path): string {
    if p == [] then "/" else RenderBelow(p)
  }

  function RenderBelow(p: Path): string {
    if p == [] then "" else RenderBelow(p[..|p| - 1]) + "/" + p[|p| - 1]
  }

  /** The components between slashes of the text after a leading slash. */
  function Split(s: string): (r: seq<string>)
    ensures r != []
  {
    if s == "" then [""]
    else
      var rest := Split(s[..|s| - 1]);
      if s[|s| - 1] == '/' then rest + [""]
      else rest[..|rest| - 1] + [rest[|rest| - 1] + [s[|s| - 1]]]
  }

  /** An absolute path that filepath.Clean leaves as it is, read as components. */
  function Parse(s: string): Option<Path> {
    if s == "" || s[0] != '/' then None
    else if s == "/" then Some([])
    else if Components(Split(s[1..])) then Some(Split(s[1..]))
    else None
  }

  lemma SplitSnoc(s: string, c: char)
    requires c != '/'
    ensures Split(s + [c]) == Split(s)[..|Split(s)| - 1] + [Split(s)[|Split(s)| - 1] + [c]]
  {
    assert (s + [c])[..|s|] == s;
  }

  lemma {:induction false} SplitName(prefix: string, name: string)
    requires '/' !in name
    ensures Split(prefix + "/" + name) == Split(prefix) + [name]
    decreases |name|
  {
    if name == "" {
      assert prefix + "/" + name == prefix + ['/'];
      assert (prefix + ['/'])[..|prefix|] == prefix;
    } else {
      var n := |name| - 1;
      var c := name[n];
      assert c in name && name == name[..n] + [c];
      SplitName(prefix, name[..n]);
      SplitSnoc(prefix + "/" + name[..n], c);
      assert prefix + "/" + name == prefix + "/" + name[..n] + [c];
    }
  }

  lemma {:induction false} SplitOne(name: string)
    requires '/' !in name
    ensures Split(name) == [name]
    decreases |name|
  {
    if name != "" {
      var n := |name| - 1;
      var c := name[n];
      assert c in name && name == name[..n] + [c];
      SplitOne(name[..n]);
      SplitSnoc(name[..n], c);
    }
  }

  lemma {:induction false} RenderedStart(p: Path)
    requires p != [] && Components(p)
    ensures |RenderBelow(p)| >= 2 && RenderBelow(p)[0] == '/'
  {
    var n := |p| - 1;
    assert p[n] in p;
    if n > 0 {
      RenderedStart(p[..n]);
    } else {
      assert RenderBelow(p[..n]) == "";
    }
  }

  lemma TailAppend(a: string, b: string)
    requires a != ""
    ensures (a + b)[1..] == a[1..] + b
  {
  }

  lemma BelowTail(p: Path)
    requires p != []
    ensures |p| == 1 ==> RenderBelow(p)[1..] == p[0]
    ensures |p| > 1 && RenderBelow(p[..|p| - 1]) != "" ==>
              RenderBelow(p)[1..] == RenderBelow(p[..|p| - 1])[1..] + "/" + p[|p| - 1]
  {
    var above, last := RenderBelow(p[..|p| - 1]), p[|p| - 1];
    assert RenderBelow(p) == above + "/" + last;
    TailAppend(above + "/", last);
    if above != "" {
      TailAppend(above, "/");
    }
    if |p| == 1 {
      assert p[..0] == [] && above == "" && (above + "/")[1..] == "";
    }
  }

  lemma {:induction false} SplitRendered(p: Path)
    requires p != [] && Components(p)
    ensures |RenderBelow(p)| >= 2 && RenderBelow(p)[0] == '/' && Split(RenderBelow(p)[1..]) == p
  {
    var n := |p| - 1;
    RenderedStart(p);
    BelowTail(p);
    assert p[n] in p;
    hide RenderBelow;
    hide Split;
    if n == 0 {
      SplitOne(p[0]);
      assert [p[0]] == p;
    } else {
      assert Components(p[..n]);
      hide Components;
      SplitRendered(p[..n]);
      SplitName(RenderBelow(p[..n])[1..], p[n]);
      assert p[..n] + [p[n]] == p;
    }
  }

  /** Text and components are two forms of the same path. */
  lemma ParseRendered(p: Path)
    requires Components(p)
    ensures Parse(Render(p)) == Some(p)
  {
    if p != [] {
      SplitRendered(p);
    }
  }

  lemma RenderedNext(p: Path)
    ensures RenderBelow(p + [""]) == RenderBelow(p) + "/"
  {
    RenderedLast(p, "");
    hide RenderBelow;
    assert RenderBelow(p) + "/" + "" == RenderBelow(p) + "/";
  }

  /** One more character of the last component is one more character of the text. */
  lemma RenderedLonger(p: Path, c: char)
    requires p != []
    ensures var m := |p| - 1; RenderBelow(p[..m] + [p[m] + [c]]) == RenderBelow(p) + [c]
  {
    var m := |p| - 1;
    RenderedLast(p[..m], p[m] + [c]);
    RenderedLast(p[..m], p[m]);
    assert p[..m] + [p[m]] == p;
    hide RenderBelow;
    JoinedTwice(RenderBelow(p[..m]) + "/", p[m], [c]);
  }

  lemma RenderedLast(p: Path, last: string)
    ensures RenderBelow(p + [last]) == RenderBelow(p) + "/" + last
  {
    assert (p + [last])[..|p|] == p;
  }

  lemma JoinedTwice(a: string, b: string, c: string)
    ensures a + (b + c) == a + b + c
  {
  }

  lemma {:induction false} RenderedSplit(s: string)
    ensures RenderBelow(Split(s)) == "/" + s
  {
    if s == "" {
      RenderedNext([]);
      assert [] + [""] == [""] && RenderBelow([]) == "";
    } else {
      var n := |s| - 1;
      var rest := Split(s[..n]);
      RenderedSplit(s[..n]);
      assert "/" + s == "/" + s[..n] + [s[n]];
      RenderedNext(rest);
      RenderedLonger(rest, s[n]);
      hide RenderBelow;
    }
  }

  lemma RenderParsed(s: string)
    requires Parse(s).Some?
    ensures Render(Parse(s).value) == s && Components(Parse(s).value)
  {
    if s != "/" {
      RenderedSplit(s[1..]);
    }
  }

  /** `^/[A-Za-z0-9_./-]*$` */
  predicate Safe(s: string) {
    s != "" && s[0] == '/' && forall c | c in s :: 'A' <= c <= 'Z' || 'a' <= c <= 'z' || '0' <= c <= '9' || c in "_./-"
  }

  lemma SafeIsTrimmed(s: string)
    requires Safe(s)
    ensures Trim(s) == s
  {
    assert s[0] in s && s[|s| - 1] in s;
    assert TrimLeft(s) == s;
  }

  // ---------------------------------------------------------------- containment

  function CommonLength(a: Path, b: Path): (k: nat)
    ensures k <= |a| && k <= |b| && a[..k] == b[..k]
    ensures k < |a| && k < |b| ==> a[k] != b[k]
  {
    if a == [] || b == [] || a[0] != b[0] then 0
    else
      var k := CommonLength(a[1..], b[1..]);
      assert a[..k + 1] == [a[0]] + a[1..][..k] && b[..k + 1] == [b[0]] + b[1..][..k];
      k + 1
  }

  function Join(parts: seq<string>): string {
    if parts == [] then "" else if |parts| == 1 then parts[0] else parts[0] + "/" + Join(parts[1..])
  }

  /** filepath.Rel between two clean absolute paths: up out of the base, then down to the target. */
  function Rel(base: Path, target: Path): string {
    var k := CommonLength(base, target);
    var steps := seq(|base| - k, _ => "..") + target[k..];
    if steps == [] then "." else Join(steps)
  }

  predicate HasPrefix(s: string, prefix: string) {
    |prefix| <= |s| && s[..|prefix|] == prefix
  }

  predicate PathWithinRoot(path: Path, root: Path) {
    var rel := Rel(root, path);
    rel != ".." && !HasPrefix(rel, "../")
  }

  lemma JoinStarts(parts: seq<string>)
    requires parts != []
    ensures |parts| == 1 ==> Join(parts) == parts[0]
    ensures |parts| > 1 ==> Join(parts) == parts[0] + "/" + Join(parts[1..])
  {
  }

  /** A relative path climbs exactly when its first step does. */
  lemma UpMeansUp(s: string, first: string, rest: string)
    requires s == first + "/" + rest && '/' !in first && HasPrefix(s, "../")
    ensures first == ".."
  {
    assert s[0] == "../"[0] && s[1] == "../"[1] && s[2] == "../"[2];
    assert s[|first|] == '/';
    assert forall i | 0 <= i < |first| :: s[i] == first[i] && first[i] in first;
  }

  lemma OneStep(first: string)
    requires '/' !in first
    ensures !HasPrefix(first, "../")
  {
    if HasPrefix(first, "../") {
      ThirdIsSlash(first);
    }
  }

  lemma ThirdIsSlash(s: string)
    requires HasPrefix(s, "../")
    ensures s[2] == '/'
  {
    assert s[2] == "../"[2];
  }

  lemma FirstStepDecides(steps: seq<string>)
    requires steps != [] && '/' !in steps[0]
    ensures (Join(steps) == ".." || HasPrefix(Join(steps), "../")) <==> steps[0] == ".."
  {
    JoinStarts(steps);
    var first := steps[0];
    if |steps| == 1 {
      OneStep(first);
    } else {
      var s := Join(steps);
      assert s == first + "/" + Join(steps[1..]);
      if HasPrefix(s, "../") {
        UpMeansUp(s, first, Join(steps[1..]));
      }
      assert s[|first|] == '/';
      assert first == ".." ==> s[..3] == "../";
    }
  }

  lemma CommonIsPrefix(root: Path, path: Path)
    ensures CommonLength(root, path) == |root| <==> root <= path
  {
  }

  /** The test on the relative path is the test on components: the root is a prefix of the path. */
  lemma WithinIsPrefix(path: Path, root: Path)
    requires Components(path) && Components(root)
    ensures PathWithinRoot(path, root) <==> root <= path
  {
    var k := CommonLength(root, path);
    CommonIsPrefix(root, path);
    var steps := seq(|root| - k, _ => "..") + path[k..];
    if steps != [] {
      if k < |root| {
        assert steps[0] == "..";
      } else {
        assert steps[0] == path[k] && path[k] in path;
      }
      FirstStepDecides(steps);
    }
  }

  // ---------------------------------------------------------------- the policy

  datatype Answer = Allowed(path: string) | BadText | UnsafeText | Unresolvable | BadRoot | Outside

  /** resolveAllowedPath for roots that normalizeRoots has accepted. */
  method ResolveAllowedPath(tree: Tree, text: string, roots: seq<string>) returns (a: Answer)
    requires GoodRoots(roots)
    ensures a == Allow(tree, text, roots)
  {
    var path := Trim(text);
    var parsed := Parse(path);
    if parsed == None {
      return BadText;
    }
    if !Safe(path) {
      return UnsafeText;
    }
    var resolved := ResolvePath(tree, parsed.value);
    if resolved == Unresolved {
      return Unresolvable;
    }
    for i := 0 to |roots|
      invariant FirstRoot(tree, resolved.path, roots) == FirstRoot(tree, resolved.path, roots[i..])
    {
      var root := ResolvePath(tree, Parse(roots[i]).value);
      assert roots[i..][0] == roots[i] && roots[i..][1..] == roots[i + 1..];
      if root == Unresolved {
        return BadRoot;
      }
      if PathWithinRoot(resolved.path, root.path) {
        return Allowed(Render(resolved.path));
      }
    }
    a := Outside;
  }

  ghost predicate GoodRoots(roots: seq<string>) {
    forall r | r in roots :: Parse(r).Some? && Safe(r)
  }

  /** The roots are tried in order, and one that cannot be resolved ends the search. */
  function FirstRoot(tree: Tree, path: Path, roots: seq<string>): Answer {
    if roots == [] then Outside
    else if Parse(roots[0]).None? then BadRoot
    else
      match Resolve(tree, Parse(roots[0]).value)
      case Unresolved => BadRoot
      case Resolved(root) =>
        if PathWithinRoot(path, root) then Allowed(Render(path)) else FirstRoot(tree, path, roots[1..])
  }

  function Allow(tree: Tree, text: string, roots: seq<string>): Answer {
    var path := Trim(text);
    if Parse(path).None? then BadText
    else if !Safe(path) then UnsafeText
    else
      match Resolve(tree, Parse(path).value)
      case Unresolved => Unresolvable
      case Resolved(p) => FirstRoot(tree, p, roots)
  }

  method NormalizeRoots(roots: seq<string>) returns (normalized: Option<seq<string>>)
    ensures normalized.Some? ==> |normalized.value| == |roots| > 0 && GoodRoots(normalized.value)
    ensures normalized.Some? ==> forall i | 0 <= i < |roots| :: normalized.value[i] == Trim(roots[i])
    ensures normalized == None <==> roots == [] || exists r :: r in roots && !(Parse(Trim(r)).Some? && Safe(Trim(r)))
  {
    if roots == [] {
      return None;
    }
    var done: seq<string> := [];
    for i := 0 to |roots|
      invariant |done| == i && GoodRoots(done)
      invariant forall k | 0 <= k < i ::
                done[k] == Trim(roots[k]) && Parse(Trim(roots[k])).Some? && Safe(Trim(roots[k]))
    {
      var root := Trim(roots[i]);
      if Parse(root) == None || !Safe(root) {
        assert roots[i] in roots;
        return None;
      }
      done := done + [root];
    }
    normalized := Some(done);
  }

  lemma {:induction false} FirstRootContains(tree: Tree, path: Path, roots: seq<string>) returns (root: string)
    requires WellRooted(tree) && GoodRoots(roots) && Components(path)
    requires FirstRoot(tree, path, roots).Allowed?
    ensures root in roots && Parse(root).Some? && Resolve(tree, Parse(root).value).Resolved?
    ensures Resolve(tree, Parse(root).value).path <= path
    ensures FirstRoot(tree, path, roots) == Allowed(Render(path))
    decreases |roots|
  {
    assert roots[0] in roots;
    RenderParsed(roots[0]);
    var r := Resolve(tree, Parse(roots[0]).value).path;
    ResolvedComponents(tree, Parse(roots[0]).value);
    WithinIsPrefix(path, r);
    if r <= path {
      root := roots[0];
    } else {
      root := FirstRootContains(tree, path, roots[1..]);
    }
  }

  /**
    An accepted path lies component by component below a resolved root, its
    existing part holds no symbolic link, and resolving it again would not
    change it.
   */
  lemma AllowedIsContained(tree: Tree, text: string, roots: seq<string>) returns (root: string, p: Path)
    requires WellRooted(tree) && GoodRoots(roots) && Allow(tree, text, roots).Allowed?
    ensures Allow(tree, text, roots) == Allowed(Render(p)) && Components(p)
    ensures root in roots && Parse(root).Some? && Resolve(tree, Parse(root).value).Resolved?
    ensures Resolve(tree, Parse(root).value).path <= p
    ensures forall j | 0 <= j <= |p| && p[..j] in tree :: !tree[p[..j]].Link?
    ensures Resolve(tree, p) == Resolved(p) && FirstRoot(tree, p, roots) == Allowed(Render(p))
  {
    var path := Trim(text);
    RenderParsed(path);
    var asked := Parse(path).value;
    p := Resolve(tree, asked).path;
    ResolvedComponents(tree, asked);
    root := FirstRootContains(tree, p, roots);
    ResolveIsIdempotent(tree, asked);
    forall j | 0 <= j <= |p| && p[..j] in tree
      ensures !tree[p[..j]].Link?
    {
      NoLinkInResolved(tree, asked, j);
    }
  }

  /** The text that is left of a path after trimming is safe and resolves to that very path. */
  predicate ResolvesBack(tree: Tree, path: string) {
    var trimmed := Trim(path);
    && Parse(path).Some? && Parse(trimmed).Some? && Safe(trimmed)
    && Resolve(tree, Parse(trimmed).value) == Resolved(Parse(path).value)
  }

  /**
    Callers compare an accepted path with the result of asking for it again.
    The two are the same exactly when the trimmed text of the path has only
    safe characters and resolves to the path.
   */
  lemma AskingAgain(tree: Tree, text: string, roots: seq<string>)
    requires WellRooted(tree) && GoodRoots(roots) && Allow(tree, text, roots).Allowed?
    ensures Allow(tree, Allow(tree, text, roots).path, roots) == Allow(tree, text, roots)
       <==> ResolvesBack(tree, Allow(tree, text, roots).path)
  {
    var root, p := AllowedIsContained(tree, text, roots);
    ParseRendered(p);
    var trimmed := Trim(Render(p));
    if Allow(tree, Render(p), roots).Allowed? {
      RenderParsed(trimmed);
      ResolvedComponents(tree, Parse(trimmed).value);
      var q := Resolve(tree, Parse(trimmed).value).path;
      var root' := FirstRootContains(tree, q, roots);
      ParseRendered(q);
    }
    hide Resolve;
    hide Parse;
    hide Render;
    hide Safe;
    hide Trim;
    hide FirstRoot;
  }

  /** Where trimming leaves the path alone, that is a matter of its characters only. */
  lemma AskingAgainUntrimmed(tree: Tree, text: string, roots: seq<string>)
    requires WellRooted(tree) && GoodRoots(roots) && Allow(tree, text, roots).Allowed?
    ensures var path := Allow(tree, text, roots).path;
            Trim(path) == path ==> (Allow(tree, path, roots) == Allow(tree, text, roots) <==> Safe(path))
    ensures var path := Allow(tree, text, roots).path;
            Safe(path) ==> Allow(tree, path, roots) == Allow(tree, text, roots)
  {
    var root, p := AllowedIsContained(tree, text, roots);
    ParseRendered(p);
    AskingAgain(tree, text, roots);
    if Safe(Render(p)) {
      SafeIsTrimmed(Render(p));
    }
    hide Resolve;
    hide Parse;
    hide Render;
    hide Safe;
    hide Trim;
    hide FirstRoot;
  }

  // ---------------------------------------------------------------- two trees

  /** A directory with a file of that name and a link to it. */
  function LinkTree(name: string): Tree {
    map[[] := Dir, ["r"] := Dir, ["r", name] := File, ["r", "x"] := Link(false, [name])]
  }

  lemma LinkTreeIsRooted(name: string)
    requires Component(name)
    ensures WellRooted(LinkTree(name))
  {
    assert ["r", "x"][..1] == ["r"] && ["r"][..0] == [] && ["r", name][..1] == ["r"];
    assert Component("r") && Component("x");
  }

  lemma RootResolves(name: string, links: nat)
    ensures Follow(LinkTree(name), [], ["r"], links) == At(["r"])
  {
    assert ["r"][1..] == [] && [] + ["r"] == ["r"];
  }

  lemma LinkFollowed(name: string)
    requires Component(name) && name != "x"
    ensures Follow(LinkTree(name), [], ["r", "x"], EVAL_LINKS) == At(["r", name])
  {
    var tree := LinkTree(name);
    assert ["r", "x"][1..] == ["x"] && [] + ["r"] == ["r"];
    assert ["r"] + ["x"] == ["r", "x"] && ["r"] + [name] == ["r", name];
    assert [name] + ["x"][1..] == [name];
    assert Follow(tree, ["r"], [name], EVAL_LINKS - 1) == At(["r", name]);
    assert Follow(tree, ["r"], ["x"], EVAL_LINKS) == At(["r", name]);
  }

  lemma LinkResolves(name: string)
    requires Component(name) && name != "x"
    ensures Resolve(LinkTree(name), ["r"]) == Resolved(["r"])
    ensures Resolve(LinkTree(name), ["r", "x"]) == Resolved(["r", name])
  {
    RootResolves(name, LSTAT_LINKS);
    RootResolves(name, EVAL_LINKS);
    LinkFollowed(name);
    assert Follow(LinkTree(name), [], [], LSTAT_LINKS) == At([]);
    hide Follow;
    assert ["r", "x"][..1] == ["r"] && ["r"][..0] == [];
    assert ["r"] + ["x"] == ["r", "x"] && [] + ["r"] == ["r"];
  }

  lemma LinkTexts()
    ensures Parse("/r") == Some(["r"]) && Parse("/r/x") == Some(["r", "x"])
    ensures Safe("/r") && Safe("/r/x") && Trim("/r/x") == "/r/x"
  {
    assert ["r", "x"][..1] == ["r"] && ["r"][..0] == [];
    assert Render(["r"]) == "/r" && Render(["r", "x"]) == "/r/x";
    ParseRendered(["r"]);
    ParseRendered(["r", "x"]);
    SafeIsTrimmed("/r/x");
  }

  /** One root, and a path that resolves below it. */
  lemma AllowedBelowOneRoot(tree: Tree, text: string, asked: Path, p: Path, root: string, r: Path)
    requires Trim(text) == text && Safe(text) && Parse(text) == Some(asked) && Resolve(tree, asked) == Resolved(p)
    requires Parse(root) == Some(r) && Resolve(tree, r) == Resolved(r) && r <= p && Components(p) && Components(r)
    ensures Allow(tree, text, [root]) == Allowed(Render(p))
  {
    WithinIsPrefix(p, r);
    hide Resolve;
    hide Parse;
    hide PathWithinRoot;
  }

  lemma SameOnceTrimmed(tree: Tree, text: string, other: string, roots: seq<string>)
    requires Trim(text) == Trim(other)
    ensures Allow(tree, text, roots) == Allow(tree, other, roots)
  {
  }

  lemma LinkShape(name: string)
    requires Component(name)
    ensures Components(["r", name]) && Components(["r"]) && ["r"] <= ["r", name]
  {
    assert Component("r");
  }

  lemma OneGoodRoot(root: string)
    requires Parse(root).Some? && Safe(root)
    ensures GoodRoots([root])
  {
  }

  lemma LinkIsAllowed(name: string)
    requires Component(name) && name != "x"
    ensures WellRooted(LinkTree(name)) && GoodRoots(["/r"])
    ensures Allow(LinkTree(name), "/r/x", ["/r"]) == Allowed(Render(["r", name]))
  {
    LinkTreeIsRooted(name);
    LinkResolves(name);
    LinkTexts();
    LinkShape(name);
    hide Allow;
    hide Resolve;
    hide Parse;
    hide Safe;
    hide Trim;
    hide Render;
    hide LinkTree;
    hide WellRooted;
    hide GoodRoots;
    hide Components;
    OneGoodRoot("/r");
    AllowedBelowOneRoot(LinkTree(name), "/r/x", ["r", "x"], ["r", name], "/r", ["r"]);
  }

  lemma RenderedAs(name: string)
    ensures Render(["r", name]) == "/r/" + name
  {
    assert ["r", name][..1] == ["r"] && ["r"][..0] == [];
    assert RenderBelow(["r"]) == "/r";
  }

  lemma NoBlankIsSafe(s: string)
    requires ' ' in s
    ensures !Safe(s)
  {
  }

  lemma TrimKeeps(s: string)
    requires s != "" && !IsSpace(s[0]) && !IsSpace(s[|s| - 1])
    ensures Trim(s) == s
  {
  }

  lemma TrimDropsOne(s: string, t: string)
    requires s == t + " " && t != "" && !IsSpace(t[0]) && !IsSpace(t[|t| - 1])
    ensures Trim(s) == t
  {
    assert s[..|s| - 1] == t && TrimLeft(s) == s;
    assert TrimRight(t) == t;
  }

  lemma BlankInside()
    ensures Component("a b") && "/r/" + "a b" == "/r/a b" && Trim("/r/a b") == "/r/a b" && !Safe("/r/a b")
  {
    var text := "/r/a b";
    assert text[4] == ' ' && text[0] == '/' && text[5] == 'b';
    TrimKeeps(text);
    NoBlankIsSafe(text);
    hide Trim;
    hide Safe;
  }

  lemma BlankBehind()
    ensures Component("x ") && "/r/" + "x " == "/r/x " && Trim("/r/x ") == "/r/x" && !Safe("/r/x ")
  {
    var text := "/r/x ";
    assert text[4] == ' ' && text == "/r/x" + " ";
    TrimDropsOne(text, "/r/x");
    NoBlankIsSafe(text);
    hide Trim;
    hide Safe;
  }

  /** A link to a name with a blank is accepted once and refused the second time. */
  lemma AcceptedOnceRefusedTwice()
    ensures WellRooted(LinkTree("a b")) && GoodRoots(["/r"])
    ensures Allow(LinkTree("a b"), "/r/x", ["/r"]) == Allowed("/r/a b")
    ensures Allow(LinkTree("a b"), "/r/a b", ["/r"]) == UnsafeText
  {
    BlankInside();
    LinkIsAllowed("a b");
    RenderedAs("a b");
    assert Component("r");
    ParseRendered(["r", "a b"]);
    hide Trim;
    hide Safe;
    hide Parse;
    hide Render;
    hide Resolve;
    hide FirstRoot;
  }

  /** With the blank at the end the second question is about the link again: unsafe text, and the same answer. */
  lemma UnsafeAndTheSame()
    ensures WellRooted(LinkTree("x ")) && GoodRoots(["/r"]) && !Safe("/r/x ")
    ensures Allow(LinkTree("x "), "/r/x", ["/r"]) == Allowed("/r/x ")
    ensures Allow(LinkTree("x "), "/r/x ", ["/r"]) == Allowed("/r/x ")
  {
    BlankBehind();
    LinkIsAllowed("x ");
    RenderedAs("x ");
    LinkTexts();
    SameOnceTrimmed(LinkTree("x "), "/r/x ", "/r/x", ["/r"]);
    hide Allow;
    hide Trim;
    hide Safe;
    hide Parse;
    hide Render;
    hide Resolve;
    hide FirstRoot;
  }
}
