/** What a merge does to the tree, place by place, in terms of the two trees alone. */
module ProjectResults {
  import opened Options
  import opened Picking
  import opened TextMerge
  import opened ProjectMerge
  import opened ProjectTrees

  // ---------------------------------------------------------------- a workspace has one target

  lemma {:induction false} NotBeforeItself(p: Place)
    ensures !Before(p, p)
    decreases |p|
  {
    if p != [] { NotBeforeItself(p[1..]); }
  }

  lemma {:induction false} NotOrderedItself(level: nat, p: Place)
    ensures !Ordered(level, p, p)
  {
    if level == 0 {
      NotBeforeItself(p);
    } else if p != [] {
      NotOrderedItself(level - 1, Parent(p));
    }
  }

  ghost predicate IsOnlyTarget(root: Elem, t: Place) {
    IsTargetAt(root, t) && forall p :: IsTargetAt(root, p) ==> p == t
  }

  /** The merge finds what it needs exactly if the workspace has one target and no other. */
  lemma HasOneTargetExactly(root: Elem)
    ensures HasOneTarget(root) <==> root.tag == "workspace" && exists t :: IsOnlyTarget(root, t)
  {
    var ps := TargetsExactly(root);
    if |ps| == 1 {
      assert IsOnlyTarget(root, ps[0]);
    } else if t :| IsOnlyTarget(root, t) {
      assert t in ps;
      assert ps[0] in ps && ps[1] in ps;
      assert ps[0] == ps[1] == t;
      NotOrderedItself(1, t);
    }
  }

  /** The target of a workspace that can be merged. */
  lemma OneTarget(root: Elem) returns (t: Place)
    requires HasOneTarget(root)
    ensures IsOnlyTarget(root, t) && At(root, t) == Targets(root.children)[0]
  {
    var ps := TargetsExactly(root);
    t := ps[0];
    assert ps == [t];
  }

  // ---------------------------------------------------------------- what is appended

  /** Tag, text and attributes agree, and the number of children. */
  predicate Resembles(a: Elem, b: Elem) {
    (a.tag, a.text, a.attrib, |a.children|) == (b.tag, b.text, b.attrib, |b.children|)
  }

  lemma HasChildExactly(children: seq<Elem>, e: Elem)
    ensures HasChild(children, e) <==> exists c :: c in children && Resembles(e, c)
  {
    if HasChild(children, e) {
      var i :| 0 <= i < |children| && ElemEqual(e, children[i]);
      assert children[i] in children && Resembles(e, children[i]);
    }
    if c :| c in children && Resembles(e, c) {
      var i :| 0 <= i < |children| && children[i] == c;
      assert ElemEqual(e, children[i]);
    }
  }

  /** news are the candidates that resemble neither a child nor an earlier candidate, in order. */
  ghost predicate PicksNew(children: seq<Elem>, candidates: seq<Elem>, at: seq<nat>, news: seq<Elem>) {
    && Picks(candidates, at, news)
    && forall j: nat :: j < |candidates| ==>
         (j in at <==> forall c :: c in children || c in candidates[..j] ==> !Resembles(candidates[j], c))
  }

  predicate NewAt(children: seq<Elem>, candidates: seq<Elem>, j: nat)
    requires j < |candidates|
  {
    !HasChild(children + candidates[..j], candidates[j])
  }

  lemma {:induction false} AppendPicks(children: seq<Elem>, candidates: seq<Elem>)
    returns (at: seq<nat>, news: seq<Elem>)
    ensures AppendMissing(children, candidates) == children + news && Picks(candidates, at, news)
    ensures forall j: nat :: j < |candidates| ==> (j in at <==> NewAt(children, candidates, j))
    decreases |candidates|
  {
    if candidates == [] {
      at, news := [], [];
    } else {
      var first, rest := candidates[0], candidates[1..];
      var found := HasChild(children, first);
      var next := if found then children else children + [first];
      var at', news' := AppendPicks(next, rest);
      at := PickHead(candidates, at', news', !found);
      news := (if !found then [first] else []) + news';
      assert children + candidates[..0] == children;
      forall j: nat | 0 < j < |candidates|
        ensures j in at <==> NewAt(children, candidates, j)
      {
        assert j in at <==> (j - 1) + 1 in at;
        AppendedFirst(children, candidates, j);
      }
      NewsJoined(children, first, found, news');
    }
  }

  lemma NewsJoined(children: seq<Elem>, first: Elem, found: bool, news: seq<Elem>)
    ensures (if found then children else children + [first]) + news ==
      children + ((if !found then [first] else []) + news)
  {
  }

  lemma AppendedFirst(children: seq<Elem>, candidates: seq<Elem>, j: nat)
    requires 0 < j < |candidates|
    ensures
      var next := if HasChild(children, candidates[0]) then children else children + [candidates[0]];
      NewAt(next, candidates[1..], j - 1) == NewAt(children, candidates, j)
  {
    var first, e, between := candidates[0], candidates[j], candidates[1..][..j - 1];
    assert children + candidates[..j] == (children + [first]) + between;
    if HasChild(children, first) {
      OneMoreChild(children, first);
      HasChildAppend(children, between, e);
      HasChildAppend(children + [first], between, e);
    }
  }

  /** The same of children that shallow equality does not tell apart. */
  lemma AppendPicksNew(children: seq<Elem>, olds: seq<Elem>, candidates: seq<Elem>)
    returns (at: seq<nat>, news: seq<Elem>)
    requires SameChildren(children, olds)
    ensures AppendMissing(children, candidates) == children + news && PicksNew(olds, candidates, at, news)
  {
    at, news := AppendPicks(children, candidates);
    forall j: nat | j < |candidates|
      ensures j in at <==> forall c :: c in olds || c in candidates[..j] ==> !Resembles(candidates[j], c)
    {
      HasChildAppend(children, candidates[..j], candidates[j]);
      assert HasChild(children, candidates[j]) <==> HasChild(olds, candidates[j]);
      HasChildExactly(olds, candidates[j]);
      HasChildExactly(candidates[..j], candidates[j]);
    }
  }

  // ---------------------------------------------------------------- a workspace, place by place

  /** Everything but the children. */
  predicate SameButChildren(a: Elem, b: Elem) {
    a.(children := []) == b.(children := [])
  }

  /** p is a target among es, the children of a default project or not. */
  predicate IsTargetIn(es: seq<Elem>, inDefault: bool, p: Place)
    requires IsPlaceIn(es, 0, p)
    decreases |p|
  {
    if |p| == 1 then inDefault && es[p[0]].tag == "dependencies"
    else
      var e := es[p[0]];
      IsTargetIn(e.children, e.tag == "project" && "default" in e.attrib && e.attrib["default"] == "yes", p[1..])
  }

  lemma {:induction false} TargetInTree(tree: Elem, inDefault: bool, p: Place)
    requires IsPlace(tree, p) && p != []
    requires inDefault == (tree.tag == "project" && "default" in tree.attrib && tree.attrib["default"] == "yes")
    ensures IsPlace(tree, Parent(p))
    ensures IsTargetIn(tree.children, inDefault, p) <==>
      var e := At(tree, Parent(p));
      && At(tree, p).tag == "dependencies"
      && e.tag == "project" && "default" in e.attrib && e.attrib["default"] == "yes"
    decreases |p|
  {
    ParentPlace(tree, p);
    if |p| > 1 {
      var e := tree.children[p[0]];
      assert Parent(p)[1..] == Parent(p[1..]);
      TargetInTree(e, e.tag == "project" && "default" in e.attrib && e.attrib["default"] == "yes", p[1..]);
    }
  }

  lemma TargetInRoot(root: Elem, p: Place)
    requires IsPlaceIn(root.children, 0, p)
    ensures IsTargetIn(root.children, false, p) <==> IsTargetAt(root, p)
  {
    if |p| > 1 {
      var e := root.children[p[0]];
      assert Parent(p)[1..] == Parent(p[1..]);
      TargetInTree(e, e.tag == "project" && "default" in e.attrib && e.attrib["default"] == "yes", p[1..]);
      ParentPlace(root, p);
    }
  }

  lemma {:induction false} ReplacedIndex(es: seq<Elem>, inDefault: bool, cs: seq<Elem>, i: nat)
    requires i < |es|
    ensures Replaced(es, inDefault, cs)[i] ==
      if inDefault && es[i].tag == "dependencies" then WithChildren(es[i], cs)
      else WithChildren(es[i], Replaced(es[i].children, IsDefault(es[i], "yes"), cs))
  {
    if i == 0 {
    } else {
      ReplacedIndex(es[1..], inDefault, cs, i - 1);
    }
  }

  /** No target above p, p itself aside. */
  predicate NoTargetAbove(es: seq<Elem>, inDefault: bool, p: Place)
    requires IsPlaceIn(es, 0, p)
    decreases |p|
  {
    if |p| == 1 then true
    else
      var e := es[p[0]];
      && !(inDefault && e.tag == "dependencies")
      && NoTargetAbove(
           e.children, e.tag == "project" && "default" in e.attrib && e.attrib["default"] == "yes", p[1..])
  }

  lemma {:induction false} ReplacedAt(es: seq<Elem>, inDefault: bool, cs: seq<Elem>, p: Place)
    requires IsPlaceIn(es, 0, p) && NoTargetAbove(es, inDefault, p)
    ensures
      var rs := Replaced(es, inDefault, cs);
      && IsPlaceIn(rs, 0, p) && SameButChildren(AtIn(es, 0, p), AtIn(rs, 0, p))
      && (IsTargetIn(es, inDefault, p) ==> AtIn(rs, 0, p).children == cs)
      && (!IsTargetIn(es, inDefault, p) ==> |AtIn(rs, 0, p).children| == |AtIn(es, 0, p).children|)
    decreases |p|
  {
    ReplacedIndex(es, inDefault, cs, p[0]);
    var e := es[p[0]];
    if |p| > 1 {
      ReplacedAt(e.children, IsDefault(e, "yes"), cs, p[1..]);
    }
  }

  lemma {:induction false} NoneAbove(es: seq<Elem>, inDefault: bool, p: Place)
    requires IsPlaceIn(es, 0, p)
    requires forall q :: q < p && IsPlaceIn(es, 0, q) ==> !IsTargetIn(es, inDefault, q)
    ensures NoTargetAbove(es, inDefault, p)
    decreases |p|
  {
    if |p| > 1 {
      var e := es[p[0]];
      assert p[..1] < p && IsPlaceIn(es, 0, p[..1]) by { assert p[..1][1..] == []; }
      var default := e.tag == "project" && "default" in e.attrib && e.attrib["default"] == "yes";
      forall q | q < p[1..] && IsPlaceIn(e.children, 0, q)
        ensures !IsTargetIn(e.children, default, q)
      {
        var longer := [p[0]] + q;
        assert longer[1..] == q && longer < p && IsPlaceIn(es, 0, longer);
      }
      NoneAbove(e.children, default, p[1..]);
    }
  }

  /** Outside the target nothing changes but that children are appended to the root: each
      element keeps its place, tag, attributes and text, and its number of children. */
  lemma X2wElsewhere(root: Elem, merge: Elem, t: Place, p: Place)
    requires HasOneTarget(root) && IsOnlyTarget(root, t)
    requires IsPlace(root, p) && p != [] && !(t < p)
    ensures
      var merged := MergedX2w(root, merge);
      && IsPlace(merged, p) && SameButChildren(At(root, p), At(merged, p))
      && (p == t ==> At(merged, p).children ==
                     AppendMissing(Targets(root.children)[0].children, DependencyProjects(merge)))
      && (p != t ==> |At(merged, p).children| == |At(root, p).children|)
  {
    var dependencies := AppendMissing(Targets(root.children)[0].children, DependencyProjects(merge));
    forall q | q < p && IsPlaceIn(root.children, 0, q)
      ensures !IsTargetIn(root.children, false, q)
    {
      TargetInRoot(root, q);
    }
    NoneAbove(root.children, false, p);
    TargetInRoot(root, p);
    ReplacedAt(root.children, false, dependencies, p);
    AppendKeepsPrefix(Replaced(root.children, false, dependencies), OtherProjects(merge));
  }

  /** The target's children after the merge: the old ones, then of the incoming workspace the
      projects listed as dependencies, in the order of the projects that list them, each unless
      it resembles an old child or an earlier one. */
  lemma X2wDependencies(root: Elem, merge: Elem)
    returns (t: Place, ps: seq<Place>, es: seq<Elem>, at: seq<nat>, news: seq<Elem>)
    requires HasOneTarget(root)
    ensures Lists(merge, ps, es) && Sorted(2, ps) && forall p :: p in ps <==> IsDependencyAt(merge, p)
    ensures IsOnlyTarget(root, t) && PicksNew(At(root, t).children, es, at, news)
    ensures IsPlace(MergedX2w(root, merge), t)
    ensures At(MergedX2w(root, merge), t).children == At(root, t).children + news
  {
    t := OneTarget(root);
    ps := DependencyProjectsExactly(merge);
    es := DependencyProjects(merge);
    at, news := AppendPicksNew(At(root, t).children, At(root, t).children, es);
    X2wElsewhere(root, merge, t, t);
  }

  /** The workspace's own children after the merge: as many as before, then of the incoming
      workspace the projects that are not the default one, in document order, each unless it
      resembles an old child or an earlier one. */
  lemma X2wProjects(root: Elem, merge: Elem) returns (ps: seq<Place>, es: seq<Elem>, at: seq<nat>, news: seq<Elem>)
    requires HasOneTarget(root)
    ensures Lists(merge, ps, es) && Sorted(0, ps) && forall p :: p in ps <==> IsOtherAt(merge, p)
    ensures PicksNew(root.children, es, at, news)
    ensures SameButChildren(MergedX2w(root, merge), root)
    ensures |MergedX2w(root, merge).children| == |root.children| + |news|
    ensures MergedX2w(root, merge).children[|root.children|..] == news
  {
    var dependencies := AppendMissing(Targets(root.children)[0].children, DependencyProjects(merge));
    ps := OtherProjectsExactly(merge);
    es := OtherProjects(merge);
    ReplacedSameChildren(root.children, dependencies);
    at, news := AppendPicksNew(Replaced(root.children, false, dependencies), root.children, es);
  }

  // ---------------------------------------------------------------- a project, place by place

  predicate HasNewPath(f: Elem, paths: set<string>) {
    "path" in f.attrib && f.attrib["path"] !in paths
  }

  lemma {:induction false} NewFilesPicks(files: seq<Elem>, paths: set<string>) returns (at: seq<nat>)
    requires forall f :: f in files ==> IsFile(f)
    ensures Picks(files, at, NewFiles(files, paths))
    ensures forall j: nat :: j < |files| ==> (j in at <==> HasNewPath(files[j], paths))
  {
    if files == [] {
      at := [];
    } else {
      assert files[0] in files;
      var rest := NewFilesPicks(files[1..], paths);
      at := PickHead(files, rest, NewFiles(files[1..], paths), Path(files[0]) !in paths);
      forall j: nat | 0 < j < |files|
        ensures j in at <==> HasNewPath(files[j], paths)
      {
        assert files[j] in files && files[j] == files[1..][j - 1] && ((j - 1) + 1 in at <==> j - 1 in rest);
      }
    }
  }

  lemma PathsExactly(tree: Elem, path: string)
    ensures path in Paths(tree) <==> exists p :: IsFileAt(tree, p) && At(tree, p).attrib["path"] == path
  {
    var ps := FilesExactly(tree);
    if path in Paths(tree) {
      var f :| f in Files(tree) && Path(f) == path;
      var k :| 0 <= k < |ps| && Files(tree)[k] == f;
      assert ps[k] in ps && At(tree, ps[k]) == f;
    }
    if p :| IsFileAt(tree, p) && At(tree, p).attrib["path"] == path {
      assert p in ps;
      var k :| 0 <= k < |ps| && ps[k] == p;
      assert Files(tree)[k] in Files(tree);
    }
  }

  /** A file of the incoming tree whose path no file of the existing tree has. */
  ghost predicate IsNewFile(root: Elem, f: Elem) {
    "path" in f.attrib && forall p :: IsFileAt(root, p) ==> At(root, p).attrib["path"] != f.attrib["path"]
  }

  predicate IsNamed(e: Elem, name: string) {
    e.tag == "property" && "name" in e.attrib && e.attrib["name"] == name
  }

  predicate IsNamedAt(tree: Elem, name: string, p: Place) {
    p != [] && IsPlace(tree, p) && IsNamed(At(tree, p), name)
  }

  /** The last property of the name, in document order. */
  ghost predicate IsLastNamed(tree: Elem, name: string, p: Place) {
    IsNamedAt(tree, name, p) && forall q :: IsNamedAt(tree, name, q) ==> q == p || Before(q, p)
  }

  function TextOf(e: Elem): string {
    if e.text == None then "" else e.text.value
  }

  /** Of the properties of a name in a list the last one counts. */
  lemma {:induction false} PropertiesLast(es: seq<Elem>, name: string) returns (k: nat)
    ensures k <= |es| && forall j :: k < j < |es| ==> !IsNamed(es[j], name)
    ensures k < |es| ==> IsNamed(es[k], name) && name in Properties(es) && Properties(es)[name] == TextOf(es[k])
    ensures k == |es| ==> name !in Properties(es) && forall j :: 0 <= j < |es| ==> !IsNamed(es[j], name)
  {
    if es == [] {
      k := 0;
    } else if IsNamed(es[|es| - 1], name) {
      k := |es| - 1;
    } else {
      k := PropertiesLast(es[..|es| - 1], name);
      if k == |es| - 1 { k := |es|; }
    }
  }

  lemma {:induction false} BeforeOneWay(p: Place, q: Place)
    requires Before(p, q)
    ensures !Before(q, p)
    decreases |p|
  {
    if p != [] && p[0] == q[0] { BeforeOneWay(p[1..], q[1..]); }
  }

  lemma LastIsLast(tree: Elem, ps: seq<Place>, name: string, k: nat, q: Place)
    requires Sorted(0, ps) && (forall p :: p in ps <==> p != [] && IsPlace(tree, p))
    requires k < |ps| && IsNamedAt(tree, name, ps[k])
    requires forall j :: k < j < |ps| ==> !IsNamedAt(tree, name, ps[j])
    ensures IsLastNamed(tree, name, q) <==> q == ps[k]
  {
    forall r | IsNamedAt(tree, name, r)
      ensures r == ps[k] || Before(r, ps[k])
    {
      assert r in ps;
      var j :| 0 <= j < |ps| && ps[j] == r;
      assert j < k ==> Ordered(0, ps[j], ps[k]);
    }
    if IsLastNamed(tree, name, q) && q != ps[k] { BeforeOneWay(q, ps[k]); }
  }

  /** A name has the text of its last property, and no other name has any. */
  lemma PropertiesExactly(tree: Elem, name: string)
    ensures name in Properties(Descendants(tree)) <==> exists p :: IsNamedAt(tree, name, p)
    ensures name in Properties(Descendants(tree)) ==> exists p :: IsLastNamed(tree, name, p)
    ensures forall p :: IsLastNamed(tree, name, p) ==>
      name in Properties(Descendants(tree)) && Properties(Descendants(tree))[name] == TextOf(At(tree, p))
  {
    var ps := DescendantPlaces(tree);
    var k := PropertiesLast(Descendants(tree), name);
    if k < |ps| {
      assert ps[k] in ps && IsNamedAt(tree, name, ps[k]);
      forall p
        ensures IsLastNamed(tree, name, p) <==> p == ps[k]
      {
        LastIsLast(tree, ps, name, k, p);
      }
      assert IsLastNamed(tree, name, ps[k]) && Descendants(tree)[k] == At(tree, ps[k]);
    } else {
      assert forall j :: 0 <= j < |ps| ==> !IsNamedAt(tree, name, ps[j]);
    }
  }

  lemma {:induction false} UpdatedPlace(es: seq<Elem>, props: map<string, string>, p: Place)
    requires IsPlaceIn(es, 0, p)
    ensures
      var us := UpdatedAll(es, props);
      && IsPlaceIn(us, 0, p)
      && var before, after := AtIn(es, 0, p), AtIn(us, 0, p);
         && after.tag == before.tag && after.attrib == before.attrib && |after.children| == |before.children|
         && after.text == UpdatedText(before, props)
    decreases |p|
  {
    UpdatedAt(es, props, p[0]);
    if |p| > 1 { UpdatedPlace(es[p[0]].children, props, p[1..]); }
  }

  /** What the merge does to one element: a property gets the text of its last incoming namesake
      merged into its own; nothing else changes. */
  ghost predicate TextMerged(merge: Elem, before: Elem, after: Elem) {
    && after.tag == before.tag && after.attrib == before.attrib && |after.children| == |before.children|
    && (forall name, q :: IsNamed(before, name) && IsLastNamed(merge, name, q) ==>
          after.text == Merged(before.text, TextOf(At(merge, q))))
    && ((forall name, q :: IsNamed(before, name) ==> !IsLastNamed(merge, name, q)) ==> after.text == before.text)
  }

  lemma TextUpdated(merge: Elem, before: Elem, after: Elem)
    requires after.tag == before.tag && after.attrib == before.attrib && |after.children| == |before.children|
    requires after.text == UpdatedText(before, Properties(Descendants(merge)))
    ensures TextMerged(merge, before, after)
  {
    if IsProperty(before) {
      var own := before.attrib["name"];
      assert IsNamed(before, own) && forall name :: IsNamed(before, name) ==> name == own;
      PropertiesExactly(merge, own);
    }
  }

  /** The merge appends the incoming files whose path is new, in document order, and then merges
      the property texts below the root; all else stays in its place. */
  lemma X2pTree(root: Elem, merge: Elem)
    returns (ps: seq<Place>, files: seq<Elem>, at: seq<nat>, news: seq<Elem>)
    ensures Lists(merge, ps, files) && Sorted(0, ps) && forall p :: p in ps <==> IsFileAt(merge, p)
    ensures Picks(files, at, news) && forall j: nat :: j < |files| ==> (j in at <==> IsNewFile(root, files[j]))
    ensures SameButChildren(MergedX2p(root, merge), root)
    ensures |MergedX2p(root, merge).children| == |root.children + news|
    ensures
      var extended := WithChildren(root, root.children + news);
      forall p :: p != [] && IsPlace(extended, p) ==>
        IsPlace(MergedX2p(root, merge), p) && TextMerged(merge, At(extended, p), At(MergedX2p(root, merge), p))
  {
    ps := FilesExactly(merge);
    files := Files(merge);
    at := NewFilesPicks(files, Paths(root));
    news := NewFiles(files, Paths(root));
    forall j: nat | j < |files|
      ensures HasNewPath(files[j], Paths(root)) <==> IsNewFile(root, files[j])
    {
      assert files[j] in files;
      PathsExactly(root, files[j].attrib["path"]);
    }
    var props, all := Properties(Descendants(merge)), root.children + news;
    var extended, merged := WithChildren(root, all), MergedX2p(root, merge);
    forall p | p != [] && IsPlace(extended, p)
      ensures IsPlace(merged, p) && TextMerged(merge, At(extended, p), At(merged, p))
    {
      UpdatedPlace(all, props, p);
      TextUpdated(merge, At(extended, p), At(merged, p));
    }
  }

  /** A text whose only inner whitespace is the separator comes in word for word. */
  lemma MergedHasWords(elem: Option<string>, text: string, w: string)
    requires SeparatorsOnly(text) && IsWord(w, Split(Strip(text)))
    ensures Merged(elem, text).Some? && IsWord(w, Split(Merged(elem, text).value))
  {
    var existing := if elem == None then "" else elem.value;
    if Strip(text) == "" {
      assert false;
    } else if Strip(existing) == "" {
      StripStripped(text);
    } else {
      SeparatorsOnlyClean(existing, text);
      MergeIsUnion(existing, text, w);
    }
  }
}
