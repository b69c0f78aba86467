/** Places in a project tree: which elements the queries find, and in what order. */
module ProjectTrees {
  import opened ProjectMerge

  /** Child indices from the root down. */
  type Place = seq<nat>

  predicate IsPlace(e: Elem, p: Place)
    decreases |p|
  {
    p == [] || (p[0] < |e.children| && IsPlace(e.children[p[0]], p[1..]))
  }

  function At(e: Elem, p: Place): Elem
    requires IsPlace(e, p)
    decreases |p|
  {
    if p == [] then e else At(e.children[p[0]], p[1..])
  }

  /** Document order: an element before those below it, and those before the next one. */
  predicate Before(p: Place, q: Place)
    decreases |p|
  {
    q != [] && (p == [] || p[0] < q[0] || (p[0] == q[0] && Before(p[1..], q[1..])))
  }

  function Parent(p: Place): Place
    requires p != []
  {
    p[..|p| - 1]
  }

  /** Document order of the elements so many levels up, and below the same one the order of the
      children, level by level. */
  predicate Ordered(level: nat, p: Place, q: Place) {
    if level == 0 then Before(p, q)
    else
      && p != [] && q != []
      && (Ordered(level - 1, Parent(p), Parent(q)) || (Parent(p) == Parent(q) && p[|p| - 1] < q[|q| - 1]))
  }

  predicate Sorted(level: nat, ps: seq<Place>) {
    forall i, j :: 0 <= i < j < |ps| ==> Ordered(level, ps[i], ps[j])
  }

  /** es are the elements at the places ps of the tree. */
  predicate Lists(tree: Elem, ps: seq<Place>, es: seq<Elem>) {
    |ps| == |es| && forall k :: 0 <= k < |ps| ==> IsPlace(tree, ps[k]) && At(tree, ps[k]) == es[k]
  }

  // ---------------------------------------------------------------- places of descendants

  /** Places counted from the n-th child on. */
  predicate IsPlaceIn(es: seq<Elem>, n: nat, p: Place) {
    p != [] && n <= p[0] < n + |es| && IsPlace(es[p[0] - n], p[1..])
  }

  function AtIn(es: seq<Elem>, n: nat, p: Place): Elem
    requires IsPlaceIn(es, n, p)
  {
    At(es[p[0] - n], p[1..])
  }

  function Prefixed(n: nat, ps: seq<Place>): (qs: seq<Place>)
    ensures |qs| == |ps| && forall k :: 0 <= k < |ps| ==> qs[k] == [n] + ps[k]
  {
    seq(|ps|, k requires 0 <= k < |ps| => [n] + ps[k])
  }

  function Places(es: seq<Elem>, n: nat): seq<Place>
    decreases es
  {
    if es == [] then [] else [[n]] + Prefixed(n, Places(es[0].children, 0)) + Places(es[1..], n + 1)
  }

  lemma {:induction false} PlacesList(es: seq<Elem>, n: nat)
    ensures |Places(es, n)| == |DescendantsOf(es)|
    ensures forall k :: 0 <= k < |Places(es, n)| ==>
      IsPlaceIn(es, n, Places(es, n)[k]) && AtIn(es, n, Places(es, n)[k]) == DescendantsOf(es)[k]
    decreases es
  {
    if es == [] {
    } else {
      var below, rest := Places(es[0].children, 0), Places(es[1..], n + 1);
      PlacesList(es[0].children, 0);
      PlacesList(es[1..], n + 1);
      var all := Places(es, n);
      assert DescendantsOf(es) == [es[0]] + DescendantsOf(es[0].children) + DescendantsOf(es[1..]);
      forall k | 0 <= k < |all|
        ensures IsPlaceIn(es, n, all[k]) && AtIn(es, n, all[k]) == DescendantsOf(es)[k]
      {
        if k == 0 {
          assert all[0] == [n] && all[0][1..] == [];
        } else if k <= |below| {
          assert all[k] == [n] + below[k - 1] && all[k][1..] == below[k - 1];
        } else {
          assert all[k] == rest[k - 1 - |below|];
        }
      }
    }
  }

  lemma {:induction false} PlacesComplete(es: seq<Elem>, n: nat, p: Place)
    requires IsPlaceIn(es, n, p)
    ensures p in Places(es, n)
    decreases es
  {
    var below, rest := Places(es[0].children, 0), Places(es[1..], n + 1);
    if p[0] > n {
      PlacesComplete(es[1..], n + 1, p);
      assert p in rest;
    } else if p[1..] == [] {
      assert p == [n];
    } else {
      PlacesComplete(es[0].children, 0, p[1..]);
      var k :| 0 <= k < |below| && below[k] == p[1..];
      assert p == [n] + p[1..] && Prefixed(n, below)[k] == p;
    }
  }

  lemma {:induction false} PlacesSorted(es: seq<Elem>, n: nat)
    ensures Sorted(0, Places(es, n))
    ensures forall k :: 0 <= k < |Places(es, n)| ==> Places(es, n)[k] != [] && Places(es, n)[k][0] >= n
    decreases es
  {
    if es == [] {
    } else {
      var below, rest := Places(es[0].children, 0), Places(es[1..], n + 1);
      PlacesSorted(es[0].children, 0);
      PlacesSorted(es[1..], n + 1);
      var all := Places(es, n);
      forall i, j | 0 <= i < j < |all|
        ensures Before(all[i], all[j])
      {
        if j <= |below| {
          assert all[j][1..] == below[j - 1] && all[j][0] == n;
          if i > 0 { assert all[i][1..] == below[i - 1]; } else { assert all[0] == [n] && all[0][1..] == []; }
        } else if i > |below| {
          assert all[i] == rest[i - 1 - |below|] && all[j] == rest[j - 1 - |below|];
        } else {
          assert all[i][0] == n && all[j] == rest[j - 1 - |below|];
        }
      }
    }
  }

  /** Descendants are listed in document order, each place once. */
  lemma DescendantPlaces(tree: Elem) returns (ps: seq<Place>)
    ensures Lists(tree, ps, Descendants(tree)) && Sorted(0, ps)
    ensures forall p :: p in ps <==> p != [] && IsPlace(tree, p)
  {
    ps := Places(tree.children, 0);
    PlacesList(tree.children, 0);
    PlacesSorted(tree.children, 0);
    forall p
      ensures p in ps <==> p != [] && IsPlace(tree, p)
    {
      if p != [] && IsPlace(tree, p) { PlacesComplete(tree.children, 0, p); }
      if p in ps {
        var k :| 0 <= k < |ps| && ps[k] == p;
        assert IsPlaceIn(tree.children, 0, ps[k]);
      }
    }
    assert forall k :: 0 <= k < |ps| ==> IsPlaceIn(tree.children, 0, ps[k]);
  }

  // ---------------------------------------------------------------- places that a query finds

  lemma ListsRest(tree: Elem, ps: seq<Place>, es: seq<Elem>, level: nat)
    requires Lists(tree, ps, es) && Sorted(level, ps) && es != []
    ensures Lists(tree, ps[1..], es[1..]) && Sorted(level, ps[1..])
    ensures forall p :: p in ps[1..] ==> Ordered(level, ps[0], p)
    ensures forall p :: p in ps <==> p == ps[0] || p in ps[1..]
  {
    assert ps == [ps[0]] + ps[1..];
  }

  lemma ListsJoin(tree: Elem, ps: seq<Place>, es: seq<Elem>, qs: seq<Place>, fs: seq<Elem>, level: nat)
    requires Lists(tree, ps, es) && Sorted(level, ps) && Lists(tree, qs, fs) && Sorted(level, qs)
    requires forall p, q :: p in ps && q in qs ==> Ordered(level, p, q)
    ensures Lists(tree, ps + qs, es + fs) && Sorted(level, ps + qs)
  {
  }

  /** The places whose elements are kept, in the same order. */
  lemma {:induction false} FilterPlaces(tree: Elem, ps: seq<Place>, es: seq<Elem>, keep: Elem -> bool, level: nat)
    returns (qs: seq<Place>)
    requires Lists(tree, ps, es) && Sorted(level, ps)
    ensures Lists(tree, qs, Filter(es, keep)) && Sorted(level, qs)
    ensures forall p :: p in qs <==> p in ps && IsPlace(tree, p) && keep(At(tree, p))
  {
    if es == [] {
      qs := [];
    } else {
      ListsRest(tree, ps, es, level);
      var rest := FilterPlaces(tree, ps[1..], es[1..], keep, level);
      var first, kept := if keep(es[0]) then [ps[0]] else [], if keep(es[0]) then [es[0]] else [];
      ListsJoin(tree, first, kept, rest, Filter(es[1..], keep), level);
      qs := first + rest;
    }
  }

  lemma {:induction false} AtSnoc(tree: Elem, p: Place, i: nat)
    requires IsPlace(tree, p)
    ensures IsPlace(tree, p + [i]) <==> i < |At(tree, p).children|
    ensures i < |At(tree, p).children| ==> At(tree, p + [i]) == At(tree, p).children[i]
    decreases |p|
  {
    if p == [] {
      assert [i][1..] == [];
    } else {
      assert (p + [i])[1..] == p[1..] + [i];
      AtSnoc(tree.children[p[0]], p[1..], i);
    }
  }

  lemma {:induction false} ParentPlace(tree: Elem, p: Place)
    requires IsPlace(tree, p) && p != []
    ensures IsPlace(tree, Parent(p))
    decreases |p|
  {
    if |p| > 1 {
      assert Parent(p)[1..] == Parent(p[1..]);
      ParentPlace(tree.children[p[0]], p[1..]);
    }
  }

  function ChildPlaces(p: Place, n: nat): (qs: seq<Place>)
    ensures |qs| == n && forall i :: 0 <= i < n ==> qs[i] == p + [i]
  {
    seq(n, i requires 0 <= i < n => p + [i])
  }

  /** The places of the children with the tag. */
  lemma TaggedUnder(tree: Elem, p: Place, tag: string, level: nat) returns (qs: seq<Place>)
    requires IsPlace(tree, p)
    ensures Lists(tree, qs, Tagged(At(tree, p).children, tag)) && Sorted(level + 1, qs)
    ensures forall q :: q in qs <==> q != [] && Parent(q) == p && IsPlace(tree, q) && At(tree, q).tag == tag
  {
    var es := At(tree, p).children;
    var ps := ChildPlaces(p, |es|);
    forall i | 0 <= i < |es|
      ensures IsPlace(tree, ps[i]) && At(tree, ps[i]) == es[i] && Parent(ps[i]) == p
    {
      AtSnoc(tree, p, i);
    }
    qs := FilterPlaces(tree, ps, es, (e: Elem) => e.tag == tag, level + 1);
    forall q
      ensures q in ps <==> q != [] && Parent(q) == p && IsPlace(tree, q)
    {
      if q != [] && Parent(q) == p && IsPlace(tree, q) {
        assert q == p + [q[|q| - 1]];
        AtSnoc(tree, p, q[|q| - 1]);
        assert ps[q[|q| - 1]] == q;
      }
    }
  }

  /** From a list of places one level down, to the children with the tag. */
  lemma {:induction false} TaggedPlaces(tree: Elem, ps: seq<Place>, es: seq<Elem>, tag: string, level: nat)
    returns (qs: seq<Place>)
    requires Lists(tree, ps, es) && Sorted(level, ps)
    ensures Lists(tree, qs, ChildrenTagged(es, tag)) && Sorted(level + 1, qs)
    ensures forall q :: q in qs <==> q != [] && Parent(q) in ps && IsPlace(tree, q) && At(tree, q).tag == tag
  {
    if es == [] {
      qs := [];
    } else {
      ListsRest(tree, ps, es, level);
      var first := TaggedUnder(tree, ps[0], tag, level);
      var rest := TaggedPlaces(tree, ps[1..], es[1..], tag, level);
      ListsJoin(tree, first, Tagged(es[0].children, tag), rest, ChildrenTagged(es[1..], tag), level + 1);
      qs := first + rest;
    }
  }

  // ---------------------------------------------------------------- the queries

  predicate IsFileAt(tree: Elem, p: Place) {
    p != [] && IsPlace(tree, p) && At(tree, p).tag == "file" && "path" in At(tree, p).attrib
  }

  predicate IsOtherAt(tree: Elem, p: Place) {
    && p != [] && IsPlace(tree, p) && At(tree, p).tag == "project"
    && "default" in At(tree, p).attrib && At(tree, p).attrib["default"] == "no"
  }

  /** A dependencies child of a descendant that is the default project. */
  predicate IsTargetAt(tree: Elem, p: Place) {
    && |p| >= 2 && IsPlace(tree, p) && At(tree, p).tag == "dependencies" && IsPlace(tree, Parent(p))
    && var e := At(tree, Parent(p)); e.tag == "project" && "default" in e.attrib && e.attrib["default"] == "yes"
  }

  /** A project child of a dependencies child of a project descendant. */
  predicate IsDependencyAt(tree: Elem, p: Place) {
    && |p| >= 3 && IsPlace(tree, p) && At(tree, p).tag == "project"
    && IsPlace(tree, Parent(p)) && At(tree, Parent(p)).tag == "dependencies"
    && IsPlace(tree, Parent(Parent(p))) && At(tree, Parent(Parent(p))).tag == "project"
  }

  /** The files with a path, in document order. */
  lemma FilesExactly(tree: Elem) returns (ps: seq<Place>)
    ensures Lists(tree, ps, Files(tree)) && Sorted(0, ps)
    ensures forall p :: p in ps <==> IsFileAt(tree, p)
  {
    ps := DescendantPlaces(tree);
    ps := FilterPlaces(tree, ps, Descendants(tree), (e: Elem) => IsFile(e), 0);
  }

  /** The projects that are not the default one, in document order. */
  lemma OtherProjectsExactly(tree: Elem) returns (ps: seq<Place>)
    ensures Lists(tree, ps, OtherProjects(tree)) && Sorted(0, ps)
    ensures forall p :: p in ps <==> IsOtherAt(tree, p)
  {
    ps := DescendantPlaces(tree);
    ps := FilterPlaces(tree, ps, Descendants(tree), (e: Elem) => IsDefault(e, "no"), 0);
  }

  /** The targets, in the order of their projects. */
  lemma TargetsExactly(tree: Elem) returns (ps: seq<Place>)
    ensures Lists(tree, ps, Targets(tree.children)) && Sorted(1, ps)
    ensures forall p :: p in ps <==> IsTargetAt(tree, p)
  {
    var all := DescendantPlaces(tree);
    var defaults := FilterPlaces(tree, all, DescendantsOf(tree.children), (e: Elem) => IsDefault(e, "yes"), 0);
    ps := TaggedPlaces(
      tree, defaults, Filter(DescendantsOf(tree.children), (e: Elem) => IsDefault(e, "yes")), "dependencies", 0);
    forall p
      ensures p in ps <==> IsTargetAt(tree, p)
    {
      if p != [] && IsPlace(tree, p) { ParentPlace(tree, p); }
    }
  }

  /** The projects listed as dependencies, in the order of the projects that list them. */
  lemma DependencyProjectsExactly(tree: Elem) returns (ps: seq<Place>)
    ensures Lists(tree, ps, DependencyProjects(tree)) && Sorted(2, ps)
    ensures forall p :: p in ps <==> IsDependencyAt(tree, p)
  {
    var all := DescendantPlaces(tree);
    var projects := Filter(Descendants(tree), (e: Elem) => IsProject(e));
    var qs := FilterPlaces(tree, all, Descendants(tree), (e: Elem) => IsProject(e), 0);
    var nodes := TaggedPlaces(tree, qs, projects, "dependencies", 0);
    ps := TaggedPlaces(tree, nodes, ChildrenTagged(projects, "dependencies"), "project", 1);
    forall p
      ensures p in ps <==> IsDependencyAt(tree, p)
    {
      if p != [] && IsPlace(tree, p) {
        ParentPlace(tree, p);
        if |p| > 1 { ParentPlace(tree, Parent(p)); }
      }
    }
  }
}
