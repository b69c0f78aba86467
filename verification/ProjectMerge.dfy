/** Merging project files (x2p) and workspaces (x2w). Elements are values; the tree and the two
    child lists that a merge extends are updated in place. */
module ProjectMerge {
  import opened Options
  import opened TextMerge

  datatype Elem = Elem(tag: string, attrib: map<string, string>, text: Option<string>, children: seq<Elem>)

  // ---------------------------------------------------------------- searching a tree

  /** All elements below e, in document order. */
  function Descendants(e: Elem): seq<Elem>
    decreases e, 1
  {
    DescendantsOf(e.children)
  }

  function DescendantsOf(es: seq<Elem>): seq<Elem>
    decreases es, 0
  {
    if es == [] then [] else [es[0]] + Descendants(es[0]) + DescendantsOf(es[1..])
  }

  predicate IsFile(e: Elem) {
    e.tag == "file" && "path" in e.attrib
  }

  function Path(e: Elem): string
    requires IsFile(e)
  {
    e.attrib["path"]
  }

  predicate IsProperty(e: Elem) {
    e.tag == "property" && "name" in e.attrib
  }

  function Filter(es: seq<Elem>, keep: Elem -> bool): (fs: seq<Elem>)
    ensures forall f :: f in fs <==> f in es && keep(f)
  {
    if es == [] then []
    else (if keep(es[0]) then [es[0]] else []) + Filter(es[1..], keep)
  }

  function Files(tree: Elem): (fs: seq<Elem>)
    ensures forall f :: f in fs <==> f in Descendants(tree) && IsFile(f)
  {
    Filter(Descendants(tree), (e: Elem) => IsFile(e))
  }

  function Paths(tree: Elem): set<string> {
    set f | f in Files(tree) :: Path(f)
  }

  predicate HasPath(es: seq<Elem>, p: string) {
    exists e :: e in es && IsFile(e) && Path(e) == p
  }

  /** Name and text of each property; a later one of the same name wins. */
  function Properties(es: seq<Elem>): map<string, string> {
    if es == [] then map[]
    else
      var e := es[|es| - 1];
      var before := Properties(es[..|es| - 1]);
      if IsProperty(e) then before[e.attrib["name"] := if e.text == None then "" else e.text.value] else before
  }

  // ---------------------------------------------------------------- merging a project

  function NewFiles(files: seq<Elem>, paths: set<string>): (fs: seq<Elem>)
    requires forall f :: f in files ==> IsFile(f)
    ensures forall f :: f in fs <==> f in files && Path(f) !in paths
  {
    if files == [] then []
    else (if Path(files[0]) in paths then [] else [files[0]]) + NewFiles(files[1..], paths)
  }

  function UpdatedText(e: Elem, props: map<string, string>): Option<string> {
    if IsProperty(e) && e.attrib["name"] in props then Merged(e.text, props[e.attrib["name"]]) else e.text
  }

  function Updated(e: Elem, props: map<string, string>): Elem
    decreases e, 1
  {
    Elem(e.tag, e.attrib, UpdatedText(e, props), UpdatedAll(e.children, props))
  }

  function UpdatedAll(es: seq<Elem>, props: map<string, string>): (us: seq<Elem>)
    ensures |us| == |es|
    decreases es, 0
  {
    if es == [] then [] else [Updated(es[0], props)] + UpdatedAll(es[1..], props)
  }

  function WithChildren(e: Elem, children: seq<Elem>): Elem {
    Elem(e.tag, e.attrib, e.text, children)
  }

  /** New files behind the existing children, then the property texts merged; the root itself
      is not searched. */
  function MergedX2p(root: Elem, merge: Elem): Elem {
    var children := root.children + NewFiles(Files(merge), Paths(root));
    WithChildren(root, UpdatedAll(children, Properties(Descendants(merge))))
  }

  /** The append loop, one file at a time. */
  function Appended(children: seq<Elem>, files: seq<Elem>, paths: set<string>): seq<Elem>
    requires forall f :: f in files ==> IsFile(f)
    decreases |files|
  {
    if files == [] then children
    else Appended(if Path(files[0]) in paths then children else children + [files[0]], files[1..], paths)
  }

  lemma {:induction false} AppendedIs(children: seq<Elem>, files: seq<Elem>, paths: set<string>)
    requires forall f :: f in files ==> IsFile(f)
    ensures Appended(children, files, paths) == children + NewFiles(files, paths)
    decreases |files|
  {
    if files != [] {
      var rest := NewFiles(files[1..], paths);
      assert files[0] in files;
      if Path(files[0]) in paths {
        AppendedIs(children, files[1..], paths);
        assert NewFiles(files, paths) == [] + rest == rest;
      } else {
        AppendedIs(children + [files[0]], files[1..], paths);
        assert children + ([files[0]] + rest) == (children + [files[0]]) + rest;
      }
    } else {
      assert children + [] == children;
    }
  }

  // ---------------------------------------------------------------- what a project merge keeps

  lemma {:induction false} DescendantsAppend(es: seq<Elem>, fs: seq<Elem>)
    ensures DescendantsOf(es + fs) == DescendantsOf(es) + DescendantsOf(fs)
  {
    if es == [] {
      assert es + fs == fs;
    } else {
      assert (es + fs)[1..] == es[1..] + fs;
      DescendantsAppend(es[1..], fs);
    }
  }

  /** What is below a descendant is a descendant. */
  lemma {:induction false} DescendantsClosed(es: seq<Elem>, e: Elem, f: Elem)
    requires e in DescendantsOf(es) && f in Descendants(e)
    ensures f in DescendantsOf(es)
    decreases es
  {
    if e in Descendants(es[0]) {
      DescendantsClosed(es[0].children, e, f);
    } else if e != es[0] {
      DescendantsClosed(es[1..], e, f);
    }
  }

  lemma {:induction false} BelowSome(es: seq<Elem>, f: Elem)
    requires f in DescendantsOf(es)
    ensures exists e :: e in es && (f == e || f in Descendants(e))
  {
    if f != es[0] && f !in Descendants(es[0]) {
      BelowSome(es[1..], f);
      var e :| e in es[1..] && (f == e || f in Descendants(e));
      assert e in es;
    }
  }

  lemma {:induction false} MemberIsDescendant(es: seq<Elem>, e: Elem)
    requires e in es
    ensures e in DescendantsOf(es)
  {
    if e != es[0] { MemberIsDescendant(es[1..], e); }
  }

  /** Merging texts moves no file and changes no path. */
  lemma {:induction false} UpdatedPaths(es: seq<Elem>, props: map<string, string>, p: string)
    ensures HasPath(DescendantsOf(UpdatedAll(es, props)), p) <==> HasPath(DescendantsOf(es), p)
    decreases es
  {
    if es == [] {
    } else {
      var us := UpdatedAll(es, props);
      UpdatedPaths(es[0].children, props, p);
      UpdatedPaths(es[1..], props, p);
      assert us[0] == Updated(es[0], props) && us[1..] == UpdatedAll(es[1..], props);
      HasPathSplit(es, p);
      HasPathSplit(us, p);
    }
  }

  lemma HasPathSplit(es: seq<Elem>, p: string)
    requires es != []
    ensures HasPath(DescendantsOf(es), p) <==>
      || (IsFile(es[0]) && Path(es[0]) == p)
      || HasPath(DescendantsOf(es[0].children), p)
      || HasPath(DescendantsOf(es[1..]), p)
  {
    assert DescendantsOf(es) == [es[0]] + DescendantsOf(es[0].children) + DescendantsOf(es[1..]);
  }

  lemma PathsAre(tree: Elem, p: string)
    ensures p in Paths(tree) <==> HasPath(Descendants(tree), p)
  {
    if HasPath(Descendants(tree), p) {
      var e :| e in Descendants(tree) && IsFile(e) && Path(e) == p;
      assert e in Files(tree);
    }
  }

  /** After the merge the paths are exactly those of both files. */
  lemma X2pPathsUnion(root: Elem, merge: Elem)
    ensures Paths(MergedX2p(root, merge)) == Paths(root) + Paths(merge)
  {
    var added := NewFiles(Files(merge), Paths(root));
    var props := Properties(Descendants(merge));
    forall p
      ensures p in Paths(MergedX2p(root, merge)) <==> p in Paths(root) + Paths(merge)
    {
      PathsAre(MergedX2p(root, merge), p);
      PathsAre(root, p);
      PathsAre(merge, p);
      UpdatedPaths(root.children + added, props, p);
      DescendantsAppend(root.children, added);
      AddedPaths(root, merge, p);
    }
  }

  /** The appended files bring in the missing paths and, below them, only paths of the same file. */
  lemma AddedPaths(root: Elem, merge: Elem, p: string)
    ensures
      var added := NewFiles(Files(merge), Paths(root));
      && (HasPath(DescendantsOf(added), p) ==> p in Paths(merge))
      && (p in Paths(merge) && p !in Paths(root) ==> HasPath(DescendantsOf(added), p))
  {
    var added := NewFiles(Files(merge), Paths(root));
    PathsAre(merge, p);
    if HasPath(DescendantsOf(added), p) {
      var f :| f in DescendantsOf(added) && IsFile(f) && Path(f) == p;
      BelowSome(added, f);
      var e :| e in added && (f == e || f in Descendants(e));
      if f != e { DescendantsClosed(merge.children, e, f); }
    }
    if p in Paths(merge) && p !in Paths(root) {
      var f :| f in Files(merge) && Path(f) == p;
      MemberIsDescendant(added, f);
    }
  }

  lemma {:induction false} UpdatedAt(es: seq<Elem>, props: map<string, string>, i: nat)
    requires i < |es|
    ensures UpdatedAll(es, props)[i] == Updated(es[i], props)
  {
    if i == 0 {
    } else {
      UpdatedAt(es[1..], props, i - 1);
    }
  }

  /** Existing children stay, in order, in front; nothing but property texts changes in them. */
  lemma X2pKeepsChildren(root: Elem, merge: Elem, i: nat)
    requires i < |root.children|
    ensures |MergedX2p(root, merge).children| >= |root.children|
    ensures MergedX2p(root, merge).children[i] == Updated(root.children[i], Properties(Descendants(merge)))
    ensures MergedX2p(root, merge).(children := []) == root.(children := [])
  {
    var children := root.children + NewFiles(Files(merge), Paths(root));
    UpdatedAt(children, Properties(Descendants(merge)), i);
  }

  /** Merging the text into the element a second time would change nothing. */
  predicate Repeatable(elem: Option<string>, text: string) {
    var existing := if elem == None then "" else elem.value;
    Strip(text) == "" || Strip(existing) == "" || Settles(Lasting(existing, text))
  }

  lemma MergedTwice(elem: Option<string>, text: string)
    ensures Merged(Merged(elem, text), text) == Merged(elem, text) <==> Repeatable(elem, text)
  {
    if Strip(text) != "" {
      MergeIdempotentExactly(if elem == None then "" else elem.value, text);
    }
  }

  predicate RepeatableAt(e: Elem, props: map<string, string>) {
    IsProperty(e) && e.attrib["name"] in props ==> Repeatable(e.text, props[e.attrib["name"]])
  }

  predicate AllRepeatable(es: seq<Elem>, props: map<string, string>) {
    forall e :: e in DescendantsOf(es) ==> RepeatableAt(e, props)
  }

  lemma AllRepeatableSplit(es: seq<Elem>, props: map<string, string>)
    requires es != []
    ensures AllRepeatable(es, props) <==>
      RepeatableAt(es[0], props) && AllRepeatable(es[0].children, props) && AllRepeatable(es[1..], props)
  {
    assert forall e :: e in DescendantsOf(es) <==>
      e == es[0] || e in DescendantsOf(es[0].children) || e in DescendantsOf(es[1..]);
  }

  lemma TextTwice(e: Elem, props: map<string, string>)
    ensures UpdatedText(Updated(e, props), props) == UpdatedText(e, props) <==> RepeatableAt(e, props)
  {
    if IsProperty(e) && e.attrib["name"] in props {
      MergedTwice(e.text, props[e.attrib["name"]]);
    }
  }

  lemma {:induction false} UpdatedTwice(es: seq<Elem>, props: map<string, string>)
    ensures UpdatedAll(UpdatedAll(es, props), props) == UpdatedAll(es, props) <==> AllRepeatable(es, props)
    decreases es
  {
    if es == [] {
      assert DescendantsOf(es) == [];
    } else {
      var us := UpdatedAll(es, props);
      assert us[0] == Updated(es[0], props) && us[1..] == UpdatedAll(es[1..], props);
      UpdatedTwice(es[0].children, props);
      UpdatedTwice(es[1..], props);
      TextTwice(es[0], props);
      AllRepeatableSplit(es, props);
      var twice := UpdatedAll(us, props);
      assert twice[0] == Updated(us[0], props) && twice[1..] == UpdatedAll(us[1..], props);
      assert twice == us <==> twice[0] == us[0] && twice[1..] == us[1..] by {
        assert us == [us[0]] + us[1..] && twice == [twice[0]] + twice[1..];
      }
    }
  }

  lemma {:induction false} NoNewFiles(files: seq<Elem>, paths: set<string>)
    requires forall f :: f in files ==> IsFile(f) && Path(f) in paths
    ensures NewFiles(files, paths) == []
  {
    if files == [] {
    } else {
      assert files[0] in files;
      NoNewFiles(files[1..], paths);
    }
  }

  /** Merging the same project file again changes nothing, exactly if every property text that
      is merged into can be merged into twice; files never come twice. */
  lemma X2pIdempotentExactly(root: Elem, merge: Elem)
    ensures MergedX2p(MergedX2p(root, merge), merge) == MergedX2p(root, merge)
       <==> AllRepeatable(root.children + NewFiles(Files(merge), Paths(root)), Properties(Descendants(merge)))
  {
    var once := MergedX2p(root, merge);
    var props := Properties(Descendants(merge));
    X2pPathsUnion(root, merge);
    NoNewFiles(Files(merge), Paths(once));
    assert once.children + [] == once.children;
    UpdatedTwice(root.children + NewFiles(Files(merge), Paths(root)), props);
  }

  predicate AllSeparatorsOnly(props: map<string, string>) {
    forall name :: name in props ==> SeparatorsOnly(props[name])
  }

  /** In particular if the incoming properties are separated by the separator alone. */
  lemma X2pIdempotent(root: Elem, merge: Elem)
    requires AllSeparatorsOnly(Properties(Descendants(merge)))
    ensures MergedX2p(MergedX2p(root, merge), merge) == MergedX2p(root, merge)
  {
    var props := Properties(Descendants(merge));
    forall e: Elem
      ensures RepeatableAt(e, props)
    {
      if IsProperty(e) && e.attrib["name"] in props {
        SeparatorsOnlyClean(if e.text == None then "" else e.text.value, props[e.attrib["name"]]);
      }
    }
    X2pIdempotentExactly(root, merge);
  }

  // ---------------------------------------------------------------- merging a workspace

  /** Tag, text, attributes and number of children; the children themselves are not compared. */
  predicate ElemEqual(a: Elem, b: Elem) {
    a.tag == b.tag && a.text == b.text && a.attrib == b.attrib && |a.children| == |b.children|
  }

  predicate HasChild(children: seq<Elem>, e: Elem) {
    exists i :: 0 <= i < |children| && ElemEqual(e, children[i])
  }

  /** Each candidate is appended unless an equal child, old or just appended, is there. */
  function AppendMissing(children: seq<Elem>, candidates: seq<Elem>): seq<Elem>
    decreases |candidates|
  {
    if candidates == [] then children
    else if HasChild(children, candidates[0]) then AppendMissing(children, candidates[1..])
    else AppendMissing(children + [candidates[0]], candidates[1..])
  }

  /** Existing children stay, in order, in front. */
  lemma {:induction false} AppendKeepsPrefix(children: seq<Elem>, candidates: seq<Elem>)
    ensures children <= AppendMissing(children, candidates)
    decreases |candidates|
  {
    if candidates == [] {
    } else {
      if HasChild(children, candidates[0]) {
        AppendKeepsPrefix(children, candidates[1..]);
      } else {
        AppendKeepsPrefix(children + [candidates[0]], candidates[1..]);
      }
    }
  }

  /** No appended child equals one in front of it. */
  lemma {:induction false} AppendedAreNew(children: seq<Elem>, candidates: seq<Elem>, j: nat)
    requires |children| <= j < |AppendMissing(children, candidates)|
    ensures AppendMissing(children, candidates)[j] in candidates
    ensures !HasChild(AppendMissing(children, candidates)[..j], AppendMissing(children, candidates)[j])
    decreases |candidates|
  {
    if HasChild(children, candidates[0]) {
      AppendedAreNew(children, candidates[1..], j);
    } else {
      var more := children + [candidates[0]];
      AppendKeepsPrefix(more, candidates[1..]);
      if j == |children| {
        assert AppendMissing(children, candidates)[..j] == children;
      } else {
        AppendedAreNew(more, candidates[1..], j);
      }
    }
  }

  /** Every candidate ends up with an equal child. */
  lemma {:induction false} AppendCovers(children: seq<Elem>, candidates: seq<Elem>, e: Elem)
    requires HasChild(children, e) || e in candidates
    ensures HasChild(AppendMissing(children, candidates), e)
    decreases |candidates|
  {
    if candidates == [] {
    } else {
      var next := if HasChild(children, candidates[0]) then children else children + [candidates[0]];
      if HasChild(children, e) {
        var i :| 0 <= i < |children| && ElemEqual(e, children[i]);
        assert ElemEqual(e, next[i]);
      } else if e == candidates[0] {
        assert ElemEqual(e, next[|children|]);
      }
      AppendCovers(next, candidates[1..], e);
    }
  }

  lemma {:induction false} AppendNothing(children: seq<Elem>, candidates: seq<Elem>)
    requires forall e :: e in candidates ==> HasChild(children, e)
    ensures AppendMissing(children, candidates) == children
    decreases |candidates|
  {
    if candidates == [] {
    } else {
      assert candidates[0] in candidates;
      AppendNothing(children, candidates[1..]);
    }
  }

  /** Merging the same workspace again changes neither list. */
  lemma AppendIdempotent(children: seq<Elem>, candidates: seq<Elem>)
    ensures AppendMissing(AppendMissing(children, candidates), candidates) == AppendMissing(children, candidates)
  {
    forall e | e in candidates
      ensures HasChild(AppendMissing(children, candidates), e)
    {
      AppendCovers(children, candidates, e);
    }
    AppendNothing(AppendMissing(children, candidates), candidates);
  }

  /** Shallow equality is an equivalence, so which of several equal children is met first does
      not matter. */
  lemma ElemEqualEquivalence(a: Elem, b: Elem, c: Elem)
    ensures ElemEqual(a, a)
    ensures ElemEqual(a, b) <==> ElemEqual(b, a)
    ensures ElemEqual(a, b) && ElemEqual(b, c) ==> ElemEqual(a, c)
  {
  }

  // ---------------------------------------------------------------- the whole workspace

  predicate IsProject(e: Elem) {
    e.tag == "project"
  }

  predicate IsDefault(e: Elem, yesOrNo: string) {
    IsProject(e) && "default" in e.attrib && e.attrib["default"] == yesOrNo
  }

  function Tagged(es: seq<Elem>, tag: string): seq<Elem> {
    Filter(es, (e: Elem) => e.tag == tag)
  }

  function ChildrenTagged(es: seq<Elem>, tag: string): seq<Elem> {
    if es == [] then [] else Tagged(es[0].children, tag) + ChildrenTagged(es[1..], tag)
  }

  /** The dependencies nodes of default projects, at any depth. */
  function Targets(es: seq<Elem>): seq<Elem> {
    ChildrenTagged(Filter(DescendantsOf(es), (e: Elem) => IsDefault(e, "yes")), "dependencies")
  }

  /** The projects listed in the dependencies of any project, and the projects marked as not the
      default one. */
  function DependencyProjects(tree: Elem): seq<Elem> {
    ChildrenTagged(ChildrenTagged(Filter(Descendants(tree), (e: Elem) => IsProject(e)), "dependencies"), "project")
  }

  function OtherProjects(tree: Elem): seq<Elem> {
    Filter(Descendants(tree), (e: Elem) => IsDefault(e, "no"))
  }

  /** The merge finds what it needs: a workspace with one target. */
  predicate HasOneTarget(root: Elem) {
    root.tag == "workspace" && |Targets(root.children)| == 1
  }

  /** The targets' children replaced. */
  function Replaced(es: seq<Elem>, inDefault: bool, cs: seq<Elem>): (rs: seq<Elem>)
    ensures |rs| == |es|
    decreases es
  {
    if es == [] then []
    else if inDefault && es[0].tag == "dependencies" then [WithChildren(es[0], cs)] + Replaced(es[1..], inDefault, cs)
    else
      [WithChildren(es[0], Replaced(es[0].children, IsDefault(es[0], "yes"), cs))] + Replaced(es[1..], inDefault, cs)
  }

  function MergedX2w(root: Elem, merge: Elem): Elem
    requires HasOneTarget(root)
  {
    var dependencies := AppendMissing(Targets(root.children)[0].children, DependencyProjects(merge));
    var placed := Replaced(root.children, false, dependencies);
    WithChildren(root, AppendMissing(placed, OtherProjects(merge)))
  }

  lemma {:induction false} FilterAppend(es: seq<Elem>, fs: seq<Elem>, keep: Elem -> bool)
    ensures Filter(es + fs, keep) == Filter(es, keep) + Filter(fs, keep)
  {
    if es == [] {
      assert es + fs == fs;
    } else {
      assert (es + fs)[1..] == es[1..] + fs;
      FilterAppend(es[1..], fs, keep);
    }
  }

  lemma {:induction false} TaggedAppend(es: seq<Elem>, fs: seq<Elem>, tag: string)
    ensures ChildrenTagged(es + fs, tag) == ChildrenTagged(es, tag) + ChildrenTagged(fs, tag)
  {
    if es == [] {
      assert es + fs == fs;
    } else {
      assert (es + fs)[1..] == es[1..] + fs;
      TaggedAppend(es[1..], fs, tag);
    }
  }

  lemma TargetsAppend(es: seq<Elem>, fs: seq<Elem>)
    ensures Targets(es + fs) == Targets(es) + Targets(fs)
  {
    var keep := (e: Elem) => IsDefault(e, "yes");
    DescendantsAppend(es, fs);
    FilterAppend(DescendantsOf(es), DescendantsOf(fs), keep);
    TaggedAppend(Filter(DescendantsOf(es), keep), Filter(DescendantsOf(fs), keep), "dependencies");
  }

  /** An element's own targets, then those below it. */
  function OwnTargets(e: Elem): seq<Elem> {
    if IsDefault(e, "yes") then Tagged(e.children, "dependencies") else []
  }

  lemma TargetsOne(e: Elem)
    ensures Targets([e]) == OwnTargets(e) + Targets(e.children)
  {
    var keep := (e: Elem) => IsDefault(e, "yes");
    assert DescendantsOf([e]) == [e] + DescendantsOf(e.children) by {
      assert [e][1..] == [] && DescendantsOf([e][1..]) == [];
    }
    FilterAppend([e], DescendantsOf(e.children), keep);
    assert Filter([e], keep) == if keep(e) then [e] else [] by { assert [e][1..] == []; }
    TaggedAppend(Filter([e], keep), Filter(DescendantsOf(e.children), keep), "dependencies");
    if keep(e) {
      assert [e][1..] == [];
      assert ChildrenTagged([e], "dependencies") ==
        Tagged(e.children, "dependencies") + ChildrenTagged([e][1..], "dependencies");
      assert ChildrenTagged([e][1..], "dependencies") == [];
    }
  }

  lemma TargetsSplit(es: seq<Elem>)
    requires es != []
    ensures Targets(es) == OwnTargets(es[0]) + Targets(es[0].children) + Targets(es[1..])
  {
    assert es == [es[0]] + es[1..];
    TargetsAppend([es[0]], es[1..]);
    TargetsOne(es[0]);
  }

  /** All targets among es: those tagged here, if es are the children of a default project, and
      those below. */
  function TargetsIn(es: seq<Elem>, inDefault: bool): seq<Elem> {
    (if inDefault then Tagged(es, "dependencies") else []) + Targets(es)
  }

  /** The target that es[0] itself is. */
  function HeadTarget(es: seq<Elem>, inDefault: bool): seq<Elem>
    requires es != []
  {
    if inDefault && es[0].tag == "dependencies" then [es[0]] else []
  }

  function BelowHead(es: seq<Elem>): seq<Elem>
    requires es != []
  {
    TargetsIn(es[0].children, IsDefault(es[0], "yes"))
  }

  lemma TargetsInSplit(es: seq<Elem>, inDefault: bool)
    requires es != []
    ensures |TargetsIn(es, inDefault)| ==
      |HeadTarget(es, inDefault)| + |BelowHead(es)| + |TargetsIn(es[1..], inDefault)|
    ensures |TargetsIn(es, inDefault)| <= 1 ==>
      TargetsIn(es, inDefault) == HeadTarget(es, inDefault) + BelowHead(es) + TargetsIn(es[1..], inDefault)
  {
    TargetsSplit(es);
    assert inDefault ==> Tagged(es, "dependencies") == HeadTarget(es, inDefault) + Tagged(es[1..], "dependencies");
  }

  /** Replacing works on the head and on the rest. */
  lemma ReplacedSplit(es: seq<Elem>, inDefault: bool, cs: seq<Elem>)
    requires es != []
    ensures
      var rs := Replaced(es, inDefault, cs);
      var isTarget := HeadTarget(es, inDefault) != [];
      && rs[1..] == Replaced(es[1..], inDefault, cs)
      && HeadTarget(rs, inDefault) == (if isTarget then [WithChildren(es[0], cs)] else [])
      && BelowHead(rs) == (if isTarget then Targets(cs)
                           else TargetsIn(rs[0].children, IsDefault(es[0], "yes")))
      && (!isTarget ==> rs[0] == WithChildren(es[0], Replaced(es[0].children, IsDefault(es[0], "yes"), cs)))
      && (isTarget ==> rs[0] == WithChildren(es[0], cs))
  {
    var rs := Replaced(es, inDefault, cs);
    assert rs[1..] == Replaced(es[1..], inDefault, cs);
  }

  lemma {:induction false} ReplacedNone(es: seq<Elem>, inDefault: bool, cs: seq<Elem>)
    requires TargetsIn(es, inDefault) == []
    ensures Replaced(es, inDefault, cs) == es
    decreases es
  {
    if es == [] {
    } else {
      TargetsInSplit(es, inDefault);
      ReplacedSplit(es, inDefault, cs);
      ReplacedNone(es[0].children, IsDefault(es[0], "yes"), cs);
      ReplacedNone(es[1..], inDefault, cs);
      SameParts(Replaced(es, inDefault, cs), es);
    }
  }

  lemma SameParts(rs: seq<Elem>, es: seq<Elem>)
    requires rs != [] && es != [] && rs[0] == es[0] && rs[1..] == es[1..]
    ensures rs == es
  {
    assert rs == [rs[0]] + rs[1..] && es == [es[0]] + es[1..];
  }

  /** Replacing the children of the only target: the targets then are that one and those in its
      new children. */
  lemma {:induction false} ReplacedCount(es: seq<Elem>, inDefault: bool, cs: seq<Elem>)
    requires |TargetsIn(es, inDefault)| == 1
    ensures |TargetsIn(Replaced(es, inDefault, cs), inDefault)| == 1 + |Targets(cs)|
    decreases es
  {
    TargetsInSplit(es, inDefault);
    ReplacedSplit(es, inDefault, cs);
    TargetsInSplit(Replaced(es, inDefault, cs), inDefault);
    if HeadTarget(es, inDefault) != [] {
      ReplacedNone(es[1..], inDefault, cs);
    } else if BelowHead(es) != [] {
      ReplacedCount(es[0].children, IsDefault(es[0], "yes"), cs);
      ReplacedNone(es[1..], inDefault, cs);
    } else {
      ReplacedNone(es[0].children, IsDefault(es[0], "yes"), cs);
      ReplacedCount(es[1..], inDefault, cs);
    }
  }

  lemma {:induction false} ReplacedTarget(es: seq<Elem>, inDefault: bool, cs: seq<Elem>)
    requires |TargetsIn(es, inDefault)| == 1 && Targets(cs) == []
    ensures TargetsIn(Replaced(es, inDefault, cs), inDefault) == [WithChildren(TargetsIn(es, inDefault)[0], cs)]
    decreases es
  {
    var rs := Replaced(es, inDefault, cs);
    TargetsInSplit(es, inDefault);
    ReplacedSplit(es, inDefault, cs);
    if HeadTarget(es, inDefault) != [] {
      ReplacedNone(es[1..], inDefault, cs);
      OnlyPart(rs, inDefault, HeadTarget(rs, inDefault));
    } else if BelowHead(es) != [] {
      ReplacedTarget(es[0].children, IsDefault(es[0], "yes"), cs);
      ReplacedNone(es[1..], inDefault, cs);
      OnlyPart(rs, inDefault, BelowHead(rs));
      OnlyPart(es, inDefault, BelowHead(es));
    } else {
      ReplacedNone(es[0].children, IsDefault(es[0], "yes"), cs);
      ReplacedTarget(es[1..], inDefault, cs);
      OnlyPart(rs, inDefault, TargetsIn(rs[1..], inDefault));
      OnlyPart(es, inDefault, TargetsIn(es[1..], inDefault));
    }
  }

  lemma OnlyPart(es: seq<Elem>, inDefault: bool, part: seq<Elem>)
    requires es != [] && |part| == 1
    requires |HeadTarget(es, inDefault)| + |BelowHead(es)| + |TargetsIn(es[1..], inDefault)| == 1
    requires part in [HeadTarget(es, inDefault), BelowHead(es), TargetsIn(es[1..], inDefault)]
    ensures TargetsIn(es, inDefault) == part
  {
    TargetsInSplit(es, inDefault);
  }

  lemma {:induction false} ReplacedSame(es: seq<Elem>, inDefault: bool)
    requires |TargetsIn(es, inDefault)| == 1
    ensures Replaced(es, inDefault, TargetsIn(es, inDefault)[0].children) == es
    decreases es
  {
    var cs := TargetsIn(es, inDefault)[0].children;
    TargetsInSplit(es, inDefault);
    ReplacedSplit(es, inDefault, cs);
    if HeadTarget(es, inDefault) != [] {
      ReplacedNone(es[1..], inDefault, cs);
    } else if BelowHead(es) != [] {
      ReplacedSame(es[0].children, IsDefault(es[0], "yes"));
      ReplacedNone(es[1..], inDefault, cs);
    } else {
      ReplacedNone(es[0].children, IsDefault(es[0], "yes"), cs);
      ReplacedSame(es[1..], inDefault);
    }
    SameParts(Replaced(es, inDefault, cs), es);
  }

  lemma {:induction false} ReplacedEqual(es: seq<Elem>, cs: seq<Elem>, i: nat)
    requires i < |es|
    ensures ElemEqual(es[i], Replaced(es, false, cs)[i])
  {
    if i == 0 {
    } else {
      ReplacedEqual(es[1..], cs, i - 1);
    }
  }

  /** The workspace's children stay, in order, in front, and shallow equality does not tell them
      from what they were. */
  lemma X2wKeepsChildren(root: Elem, merge: Elem, i: nat)
    requires HasOneTarget(root) && i < |root.children|
    ensures |MergedX2w(root, merge).children| >= |root.children|
    ensures ElemEqual(root.children[i], MergedX2w(root, merge).children[i])
    ensures MergedX2w(root, merge).(children := []) == root.(children := [])
  {
    var dependencies := AppendMissing(Targets(root.children)[0].children, DependencyProjects(merge));
    AppendKeepsPrefix(Replaced(root.children, false, dependencies), OtherProjects(merge));
    ReplacedEqual(root.children, dependencies, i);
  }

  /** No candidate that is new among the children and the candidates before it holds a target. */
  predicate BringsNoTarget(children: seq<Elem>, candidates: seq<Elem>) {
    forall i :: 0 <= i < |candidates| && !HasChild(children + candidates[..i], candidates[i]) ==>
      Targets([candidates[i]]) == []
  }

  ghost predicate SameChildren(es: seq<Elem>, fs: seq<Elem>) {
    forall e :: HasChild(es, e) <==> HasChild(fs, e)
  }

  lemma HasChildAppend(es: seq<Elem>, fs: seq<Elem>, e: Elem)
    ensures HasChild(es + fs, e) <==> HasChild(es, e) || HasChild(fs, e)
  {
    if HasChild(es, e) {
      var i :| 0 <= i < |es| && ElemEqual(e, es[i]);
      assert ElemEqual(e, (es + fs)[i]);
    }
    if HasChild(fs, e) {
      var i :| 0 <= i < |fs| && ElemEqual(e, fs[i]);
      assert ElemEqual(e, (es + fs)[|es| + i]);
    }
  }

  lemma SameBringsNoTarget(es: seq<Elem>, fs: seq<Elem>, candidates: seq<Elem>)
    requires SameChildren(es, fs)
    ensures BringsNoTarget(es, candidates) <==> BringsNoTarget(fs, candidates)
  {
    forall i | 0 <= i < |candidates|
      ensures HasChild(es + candidates[..i], candidates[i]) <==> HasChild(fs + candidates[..i], candidates[i])
    {
      HasChildAppend(es, candidates[..i], candidates[i]);
      HasChildAppend(fs, candidates[..i], candidates[i]);
      assert HasChild(es, candidates[i]) <==> HasChild(fs, candidates[i]);
    }
  }

  /** A child equal to one that is there makes no difference. */
  lemma OneMoreChild(children: seq<Elem>, e: Elem)
    requires HasChild(children, e)
    ensures SameChildren(children + [e], children)
  {
    var k :| 0 <= k < |children| && ElemEqual(e, children[k]);
    forall x
      ensures HasChild(children + [e], x) <==> HasChild(children, x)
    {
      HasChildAppend(children, [e], x);
      if HasChild([e], x) {
        ElemEqualEquivalence(x, e, children[k]);
        assert ElemEqual(x, children[k]);
      }
    }
  }

  /** The first candidate apart from the rest. */
  lemma BringsSplit(children: seq<Elem>, candidates: seq<Elem>)
    requires candidates != []
    ensures BringsNoTarget(children, candidates) <==>
      && (HasChild(children, candidates[0]) || Targets([candidates[0]]) == [])
      && BringsNoTarget(children + [candidates[0]], candidates[1..])
  {
    var first, rest := candidates[0], candidates[1..];
    assert children + candidates[..0] == children;
    assert forall i :: 0 <= i < |rest| ==> (children + [first]) + rest[..i] == children + candidates[..i + 1];
    if BringsNoTarget(children, candidates) {
      forall i | 0 <= i < |rest| && !HasChild((children + [first]) + rest[..i], rest[i])
        ensures Targets([rest[i]]) == []
      {
        assert rest[i] == candidates[i + 1];
      }
    }
    if BringsNoTarget(children + [first], rest) {
      forall i | 0 < i < |candidates| && !HasChild(children + candidates[..i], candidates[i])
        ensures Targets([candidates[i]]) == []
      {
        assert candidates[i] == rest[i - 1] && (children + [first]) + rest[..i - 1] == children + candidates[..i];
      }
    }
  }

  /** What is appended holds no target exactly if no new candidate does. */
  lemma {:induction false} AppendedTargets(children: seq<Elem>, candidates: seq<Elem>)
    ensures children <= AppendMissing(children, candidates)
    ensures Targets(AppendMissing(children, candidates)[|children|..]) == [] <==> BringsNoTarget(children, candidates)
    decreases |candidates|
  {
    var all := AppendMissing(children, candidates);
    AppendKeepsPrefix(children, candidates);
    if candidates == [] {
      assert all[|children|..] == [] && Targets([]) == [];
    } else {
      var first := candidates[0];
      BringsSplit(children, candidates);
      if HasChild(children, first) {
        OneMoreChild(children, first);
        SameBringsNoTarget(children + [first], children, candidates[1..]);
        AppendedTargets(children, candidates[1..]);
      } else {
        AppendedTargets(children + [first], candidates[1..]);
        assert all[|children|..] == [first] + all[|children| + 1..];
        TargetsAppend([first], all[|children| + 1..]);
      }
    }
  }

  /** Shallow equality does not see that children of a target were replaced. */
  lemma ReplacedSameChildren(es: seq<Elem>, cs: seq<Elem>)
    ensures SameChildren(Replaced(es, false, cs), es)
  {
    var rs := Replaced(es, false, cs);
    forall x
      ensures HasChild(rs, x) <==> HasChild(es, x)
    {
      forall i | 0 <= i < |es|
        ensures ElemEqual(x, rs[i]) <==> ElemEqual(x, es[i])
      {
        ReplacedEqual(es, cs, i);
        ElemEqualEquivalence(x, es[i], rs[i]);
        ElemEqualEquivalence(x, rs[i], es[i]);
      }
    }
  }

  /** The same workspace can be merged again exactly if no project that is new to the target or
      to the workspace holds a target of its own; merging it again then changes nothing. */
  lemma X2wIdempotentExactly(root: Elem, merge: Elem)
    requires HasOneTarget(root)
    ensures HasOneTarget(MergedX2w(root, merge)) <==>
      && BringsNoTarget(Targets(root.children)[0].children, DependencyProjects(merge))
      && BringsNoTarget(root.children, OtherProjects(merge))
    ensures HasOneTarget(MergedX2w(root, merge)) ==>
      MergedX2w(MergedX2w(root, merge), merge) == MergedX2w(root, merge)
  {
    var once := MergedX2w(root, merge);
    var listed := Targets(root.children)[0].children;
    var dependencies := AppendMissing(listed, DependencyProjects(merge));
    var placed := Replaced(root.children, false, dependencies);
    TargetCount(root, listed, dependencies);
    AppendedTargets(listed, DependencyProjects(merge));
    AppendedTargets(placed, OtherProjects(merge));
    ReplacedSameChildren(root.children, dependencies);
    SameBringsNoTarget(placed, root.children, OtherProjects(merge));
    Tail(listed, dependencies);
    Tail(placed, once.children);
    if HasOneTarget(once) { MergedAgain(root, merge); }
  }

  lemma Tail(es: seq<Elem>, all: seq<Elem>)
    requires es <= all
    ensures Targets(all) == Targets(es) + Targets(all[|es|..])
  {
    assert all == es + all[|es|..];
    TargetsAppend(es, all[|es|..]);
  }

  /** The old dependencies hold no target; the new ones add theirs. */
  lemma TargetCount(root: Elem, listed: seq<Elem>, dependencies: seq<Elem>)
    requires |Targets(root.children)| == 1 && listed == Targets(root.children)[0].children
    ensures Targets(listed) == []
    ensures |Targets(Replaced(root.children, false, dependencies))| == 1 + |Targets(dependencies)|
  {
    assert TargetsIn(root.children, false) == Targets(root.children);
    ReplacedCount(root.children, false, dependencies);
    ReplacedCount(root.children, false, listed);
    ReplacedSame(root.children, false);
  }

  lemma MergedAgain(root: Elem, merge: Elem)
    requires HasOneTarget(root) && HasOneTarget(MergedX2w(root, merge))
    ensures MergedX2w(MergedX2w(root, merge), merge) == MergedX2w(root, merge)
  {
    var once := MergedX2w(root, merge);
    var listed := Targets(root.children)[0].children;
    var dependencies := AppendMissing(listed, DependencyProjects(merge));
    var placed := Replaced(root.children, false, dependencies);
    FoundAgain(root, merge);
    AppendIdempotent(listed, DependencyProjects(merge));
    assert TargetsIn(once.children, false) == Targets(once.children);
    ReplacedSame(once.children, false);
    AppendIdempotent(placed, OtherProjects(merge));
  }

  /** The target found again is the old one, with its new children. */
  lemma FoundAgain(root: Elem, merge: Elem)
    requires HasOneTarget(root) && HasOneTarget(MergedX2w(root, merge))
    ensures Targets(MergedX2w(root, merge).children)[0].children ==
      AppendMissing(Targets(root.children)[0].children, DependencyProjects(merge))
  {
    var all := MergedX2w(root, merge).children;
    var listed := Targets(root.children)[0].children;
    var dependencies := AppendMissing(listed, DependencyProjects(merge));
    var placed := Replaced(root.children, false, dependencies);
    TargetCount(root, listed, dependencies);
    AppendKeepsPrefix(placed, OtherProjects(merge));
    Tail(placed, all);
    assert Targets(dependencies) == [] && Targets(all) == Targets(placed);
    TargetKept(root.children, dependencies);
  }

  lemma TargetKept(es: seq<Elem>, cs: seq<Elem>)
    requires |Targets(es)| == 1 && Targets(cs) == []
    ensures Targets(Replaced(es, false, cs)) == [WithChildren(Targets(es)[0], cs)]
  {
    assert TargetsIn(es, false) == Targets(es);
    ReplacedTarget(es, false, cs);
    assert TargetsIn(Replaced(es, false, cs), false) == Targets(Replaced(es, false, cs));
  }

  // ---------------------------------------------------------------- a workspace that is merged once only

  function DefaultProject(isDefault: string, children: seq<Elem>): Elem {
    Elem("project", map["default" := isDefault], None, children)
  }

  const APP := DefaultProject("yes", [Elem("dependencies", map[], None, [])])

  /** A workspace with one default project, and one whose other project holds a default project. */
  const PLAIN := Elem("workspace", map[], None, [APP])
  const NESTED := Elem("workspace", map[], None, [DefaultProject("no", [APP])])

  lemma DependenciesTarget()
    ensures Targets([APP]) == APP.children
  {
    TargetsOne(APP);
    assert Tagged(APP.children, "dependencies") == APP.children by { assert APP.children[1..] == []; }
    var node := APP.children[0];
    assert DescendantsOf(APP.children) == [node] by {
      assert APP.children[1..] == [] && DescendantsOf(APP.children[1..]) == [] && Descendants(node) == [];
    }
    assert [node][1..] == [];
  }

  lemma NestedDescendants()
    ensures DescendantsOf(NESTED.children) == [NESTED.children[0], APP, APP.children[0]]
  {
    var node := APP.children[0];
    assert DescendantsOf([APP]) == [APP, node] by {
      assert APP.children == [node] && [node][1..] == [] && [APP][1..] == [] && Descendants(node) == [];
    }
    assert NESTED.children[1..] == [] && NESTED.children[0].children == [APP];
  }

  lemma NestedOther()
    ensures OtherProjects(NESTED) == NESTED.children
  {
    var other, node := NESTED.children[0], APP.children[0];
    NestedDescendants();
    var keep := (e: Elem) => IsDefault(e, "no");
    assert Filter([other, APP, node], keep) == [other] by {
      assert [other, APP, node][1..] == [APP, node] && [APP, node][1..] == [node] && [node][1..] == [];
      assert Filter([node], keep) == [];
    }
  }

  lemma NestedTarget()
    ensures Targets(NESTED.children) == APP.children
  {
    DependenciesTarget();
    TargetsOne(NESTED.children[0]);
    assert NESTED.children[0].children == [APP] && NESTED.children == [NESTED.children[0]];
  }

  /** After this merge no workspace can be merged any more: two targets are found. */
  lemma NestedDefaultMergesOnce()
    ensures HasOneTarget(PLAIN) && !HasOneTarget(MergedX2w(PLAIN, NESTED))
  {
    DependenciesTarget();
    NestedOther();
    NestedTarget();
    X2wIdempotentExactly(PLAIN, NESTED);
    var other := NESTED.children[0];
    assert PLAIN.children + NESTED.children[..0] == [APP] && [other] == NESTED.children;
    assert !HasChild([APP], other);
    assert Targets([NESTED.children[0]]) != [];
  }

  // ---------------------------------------------------------------- in place

  method NodeHasChild(children: seq<Elem>, e: Elem) returns (found: bool)
    ensures found <==> HasChild(children, e)
  {
    var i := 0;
    while i < |children|
      invariant 0 <= i <= |children|
      invariant forall j :: 0 <= j < i ==> !ElemEqual(e, children[j])
    {
      if ElemEqual(e, children[i]) {
        return true;
      }
      i := i + 1;
    }
    return false;
  }

  class Project {
    var root: Elem

    constructor (root: Elem)
      ensures this.root == root
    {
      this.root := root;
    }

    method AppendNewFiles(files: seq<Elem>, paths: set<string>)
      requires forall f :: f in files ==> IsFile(f)
      modifies this
      ensures root == WithChildren(old(root), old(root).children + NewFiles(files, paths))
    {
      var i := 0;
      assert files[0..] == files;
      while i < |files|
        invariant 0 <= i <= |files| && root == WithChildren(old(root), root.children)
        invariant Appended(root.children, files[i..], paths) == Appended(old(root).children, files, paths)
      {
        assert files[i..][1..] == files[i + 1..] && files[i..][0] == files[i];
        if Path(files[i]) !in paths {
          root := WithChildren(root, root.children + [files[i]]);
        }
        i := i + 1;
      }
      AppendedIs(old(root).children, files, paths);
    }

    method MergeX2p(merge: Elem)
      modifies this
      ensures root == MergedX2p(old(root), merge)
    {
      var paths := Paths(root);
      AppendNewFiles(Files(merge), paths);
      root := WithChildren(root, UpdatedAll(root.children, Properties(Descendants(merge))));
    }
  }

  /** A workspace file. */
  class Workspace {
    var root: Elem

    constructor (root: Elem)
      ensures this.root == root
    {
      this.root := root;
    }

    static method AppendNewChildren(children0: seq<Elem>, candidates: seq<Elem>) returns (children: seq<Elem>)
      ensures children == AppendMissing(children0, candidates)
    {
      children := children0;
      assert candidates[0..] == candidates;
      for i := 0 to |candidates|
        invariant AppendMissing(children, candidates[i..]) == AppendMissing(children0, candidates)
      {
        var found := NodeHasChild(children, candidates[i]);
        assert candidates[i..][1..] == candidates[i + 1..];
        if !found {
          children := children + [candidates[i]];
        }
      }
    }

    /** Without a workspace that has one target an assertion fails and nothing is merged. */
    method MergeX2w(merge: Elem) returns (ok: bool)
      modifies this
      ensures ok <==> HasOneTarget(old(root))
      ensures root == if ok then MergedX2w(old(root), merge) else old(root)
    {
      var targets := Targets(root.children);
      if root.tag != "workspace" || |targets| != 1 {
        return false;
      }
      var dependencies := AppendNewChildren(targets[0].children, DependencyProjects(merge));
      root := WithChildren(root, Replaced(root.children, false, dependencies));
      var children := AppendNewChildren(root.children, OtherProjects(merge));
      root := WithChildren(root, children);
      return true;
    }
  }
}
