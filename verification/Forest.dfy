/**
 * The forest a flat list of groups stands for: every group under the parent it can be attached to,
 * whatever cycles and missing names the parents contain (packages/viewmodel/src/cards.ts).
 */
module Forest {
  import opened Wrappers
  import opened Seqs
  import opened ParentChain

  /** The distinct groups in order of first appearance, with what their last rows said. */
  datatype Book = Book(order: seq<string>, parents: Parents, amounts: map<string, int>) {
    ghost predicate Valid() {
      && (forall i, j | 0 <= i < j < |order| :: order[i] != order[j])
      && (forall n :: n in order <==> n in parents)
      && amounts.Keys == parents.Keys
    }
  }

  /** The group a group hangs from; none where its parent is blank or missing, or it is on a parent cycle. */
  ghost function Attached(parents: Parents, name: string): Option<string> {
    var parent := ParentOf(parents, name);
    if parent == "" || parent !in parents || OnCycle(parents, name) then None else Some(parent)
  }

  /** The n-th group above in the forest. */
  ghost function Above(parents: Parents, name: string, n: nat): Option<string> {
    if n == 0 then Some(name)
    else
      var below := Above(parents, name, n - 1);
      if below.None? then None else Attached(parents, below.value)
  }

  lemma {:induction false} AboveAbove(parents: Parents, name: string, m: nat, n: nat)
    requires Above(parents, name, m).Some?
    ensures Above(parents, name, m + n) == Above(parents, Above(parents, name, m).value, n)
    decreases n
  {
    if n > 0 {
      AboveAbove(parents, name, m, n - 1);
    }
  }

  lemma {:induction false} AboveStaysNone(parents: Parents, name: string, m: nat, n: nat)
    requires m <= n && Above(parents, name, m).None?
    ensures Above(parents, name, n).None?
    decreases n
  {
    if m < n {
      AboveStaysNone(parents, name, m, n - 1);
    }
  }

  lemma {:induction false} AboveIsUp(parents: Parents, name: string, n: nat)
    requires n > 0 && Above(parents, name, n).Some?
    ensures Above(parents, name, n) == Some(Up(parents, name, n)) && Up(parents, name, n) != ""
    decreases n
  {
    if n > 1 {
      AboveIsUp(parents, name, n - 1);
    } else {
      assert Above(parents, name, 0) == Some(name) && Up(parents, name, 0) == name;
    }
  }

  /** Attaching never closes a cycle. */
  lemma {:induction false} NoForestCycle(parents: Parents, name: string, n: nat)
    requires n > 0
    ensures Above(parents, name, n) != Some(name)
  {
    if Above(parents, name, n) == Some(name) {
      AboveIsUp(parents, name, n);
      assert OnCycle(parents, name);
      assert Above(parents, name, 0) == Some(name);
      assert Above(parents, name, 1).None?;
      AboveStaysNone(parents, name, 1, n);
      assert false;
    }
  }

  ghost predicate Under(parents: Parents, name: string, top: string) {
    exists n: nat :: Above(parents, name, n) == Some(top)
  }

  ghost predicate StrictlyUnder(parents: Parents, name: string, top: string) {
    exists n: nat :: n > 0 && Above(parents, name, n) == Some(top)
  }

  // ------------------------------------------------------------------ building

  /** The groups of `names` that hang from `from`, in order. */
  ghost function Hanging(parents: Parents, names: seq<string>, from: Option<string>): seq<string> {
    if names == [] then []
    else Hanging(parents, Init(names), from) + if Attached(parents, Last(names)) == from then [Last(names)] else []
  }

  lemma {:induction false} HangingExactly(parents: Parents, names: seq<string>, from: Option<string>)
    requires forall i, j | 0 <= i < j < |names| :: names[i] != names[j]
    ensures var hung := Hanging(parents, names, from);
            && (forall n :: n in hung <==> n in names && Attached(parents, n) == from)
            && (forall i, j | 0 <= i < j < |hung| :: hung[i] != hung[j])
  {
    if names != [] {
      HangingExactly(parents, Init(names), from);
      assert names == Init(names) + [Last(names)];
    }
  }

  datatype Tree = Tree(name: string, amount: int, children: seq<Tree>)

  /** `name` is a group below everything in `path`. */
  ghost predicate Placed(b: Book, name: string, path: set<string>) {
    name in b.parents && name !in path && forall a | a in path :: StrictlyUnder(b.parents, name, a)
  }

  lemma {:induction false} ChildIsPlaced(b: Book, name: string, path: set<string>, child: string)
    requires Placed(b, name, path) && child in b.parents && Attached(b.parents, child) == Some(name)
    ensures Placed(b, child, path + {name})
  {
    assert Above(b.parents, child, 0) == Some(child);
    assert Above(b.parents, child, 1) == Some(name);
    forall a | a in path
      ensures StrictlyUnder(b.parents, child, a)
    {
      var n: nat :| n > 0 && Above(b.parents, name, n) == Some(a);
      AboveAbove(b.parents, child, 1, n);
    }
    forall a | a in path + {name}
      ensures child != a
    {
      var n: nat :| n > 0 && Above(b.parents, child, n) == Some(a);
      NoForestCycle(b.parents, child, n);
    }
  }

  lemma {:induction false} ChildrenArePlaced(b: Book, name: string, path: set<string>)
    requires b.Valid() && Placed(b, name, path)
    ensures forall c | c in Hanging(b.parents, b.order, Some(name)) :: Placed(b, c, path + {name})
  {
    HangingExactly(b.parents, b.order, Some(name));
    forall c | c in Hanging(b.parents, b.order, Some(name))
      ensures Placed(b, c, path + {name})
    {
      ChildIsPlaced(b, name, path, c);
    }
  }

  lemma {:induction false} PathShrinks(b: Book, name: string, path: set<string>)
    requires Placed(b, name, path)
    ensures |b.parents.Keys - (path + {name})| < |b.parents.Keys - path|
  {
    assert b.parents.Keys - (path + {name}) == b.parents.Keys - path - {name};
  }

  ghost function Build(b: Book, name: string, path: set<string>): Tree
    requires b.Valid() && Placed(b, name, path)
    decreases |b.parents.Keys - path|, 0
  {
    ChildrenArePlaced(b, name, path);
    PathShrinks(b, name, path);
    Tree(name, b.amounts[name], BuildAll(b, Hanging(b.parents, b.order, Some(name)), path + {name}))
  }

  ghost function BuildAll(b: Book, names: seq<string>, path: set<string>): (ts: seq<Tree>)
    requires b.Valid() && forall n | n in names :: Placed(b, n, path)
    ensures |ts| == |names|
    decreases |b.parents.Keys - path|, |names| + 1
  {
    if names == [] then [] else BuildAll(b, Init(names), path) + [Build(b, Last(names), path)]
  }

  ghost function Roots(b: Book): seq<string> {
    Hanging(b.parents, b.order, None)
  }

  lemma {:induction false} RootsArePlaced(b: Book)
    requires b.Valid()
    ensures forall n | n in Roots(b) :: Placed(b, n, {})
  {
    HangingExactly(b.parents, b.order, None);
  }

  /** The whole forest. */
  ghost function ForestOf(b: Book): seq<Tree>
    requires b.Valid()
  {
    RootsArePlaced(b);
    BuildAll(b, Roots(b), {})
  }

  // ------------------------------------------------------------------ every group once

  function Occurs(t: Tree, name: string): nat {
    (if t.name == name then 1 else 0) + OccursIn(t.children, name)
  }

  function OccursIn(ts: seq<Tree>, name: string): nat {
    if ts == [] then 0 else OccursIn(Init(ts), name) + Occurs(Last(ts), name)
  }

  /** Two groups that hang from the same place have nothing in common below them. */
  lemma {:induction false} SiblingsAreApart(parents: Parents, x: string, c: string, d: string)
    requires Attached(parents, c) == Attached(parents, d)
    requires Under(parents, x, c) && Under(parents, x, d)
    ensures c == d
  {
    var m: nat :| Above(parents, x, m) == Some(c);
    var n: nat :| Above(parents, x, n) == Some(d);
    if m < n {
      NotBelowSibling(parents, x, c, d, m, n);
    } else if n < m {
      NotBelowSibling(parents, x, d, c, n, m);
    }
  }

  lemma {:induction false} NotBelowSibling(parents: Parents, x: string, c: string, d: string, m: nat, n: nat)
    requires Attached(parents, c) == Attached(parents, d)
    requires m < n && Above(parents, x, m) == Some(c)
    ensures Above(parents, x, n) != Some(d)
  {
    if Above(parents, x, n) == Some(d) {
      AboveAbove(parents, x, m, n - m);
      AboveAbove(parents, x, m, 1);
      assert Above(parents, c, 0) == Some(c);
      assert Above(parents, c, 1) == Attached(parents, c);
      if Attached(parents, c).None? {
        AboveStaysNone(parents, c, 1, n - m);
        assert false;
      } else {
        var p := Attached(parents, c).value;
        AboveAbove(parents, c, 1, n - m - 1);
        assert Above(parents, p, n - m - 1) == Some(d);
        assert Above(parents, p, n - m) == Some(p);
        NoForestCycle(parents, p, n - m);
        assert false;
      }
    }
  }

  /** Below a group come the group itself and what is below one of its children. */
  lemma {:induction false} UnderSplits(parents: Parents, x: string, name: string, child: string)
    requires Attached(parents, child) == Some(name) && Under(parents, x, child)
    ensures Under(parents, x, name) && x != name
  {
    var n: nat :| Above(parents, x, n) == Some(child);
    assert Above(parents, x, n + 1) == Some(name);
    NoForestCycle(parents, x, n + 1);
  }

  lemma {:induction false} UnderChild(b: Book, x: string, name: string) returns (child: string)
    requires b.Valid() && x in b.parents && Under(b.parents, x, name) && x != name
    ensures child in b.parents && Attached(b.parents, child) == Some(name) && Under(b.parents, x, child)
  {
    var n: nat :| Above(b.parents, x, n) == Some(name);
    assert n > 0;
    child := Above(b.parents, x, n - 1).value;
    AboveIsGroup(b.parents, x, n - 1);
  }

  lemma {:induction false} AboveIsGroup(parents: Parents, x: string, n: nat)
    requires x in parents && Above(parents, x, n).Some?
    ensures Above(parents, x, n).value in parents
    decreases n
  {
  }

  ghost predicate UnderOne(parents: Parents, x: string, names: seq<string>) {
    exists n | n in names :: Under(parents, x, n)
  }

  /** A tree holds each group below its root once and no other. */
  lemma {:induction false} TreeHoldsOnce(b: Book, name: string, path: set<string>, x: string)
    requires b.Valid() && Placed(b, name, path) && x in b.parents
    ensures Occurs(Build(b, name, path), x) == if Under(b.parents, x, name) then 1 else 0
    decreases |b.parents.Keys - path|, 0
  {
    var kids := Hanging(b.parents, b.order, Some(name));
    HangingExactly(b.parents, b.order, Some(name));
    ChildrenArePlaced(b, name, path);
    PathShrinks(b, name, path);
    TreesHoldOnce(b, kids, path + {name}, Some(name), x);
    assert Above(b.parents, name, 0) == Some(name);
    if UnderOne(b.parents, x, kids) {
      var c :| c in kids && Under(b.parents, x, c);
      UnderSplits(b.parents, x, name, c);
    } else if x != name && Under(b.parents, x, name) {
      var c := UnderChild(b, x, name);
      assert false;
    }
  }

  lemma {:induction false} TreesHoldOnce(b: Book, names: seq<string>, path: set<string>, from: Option<string>,
                                         x: string)
    requires b.Valid() && x in b.parents
    requires forall n | n in names :: Placed(b, n, path) && Attached(b.parents, n) == from
    requires forall i, j | 0 <= i < j < |names| :: names[i] != names[j]
    ensures OccursIn(BuildAll(b, names, path), x) == if UnderOne(b.parents, x, names) then 1 else 0
    decreases |b.parents.Keys - path|, |names| + 1
  {
    if names != [] {
      var init, last := Init(names), Last(names);
      TreesHoldOnce(b, init, path, from, x);
      TreeHoldsOnce(b, last, path, x);
      InitLast(BuildAll(b, init, path), Build(b, last, path));
      if Under(b.parents, x, last) && UnderOne(b.parents, x, init) {
        var c :| c in init && Under(b.parents, x, c);
        SiblingsAreApart(b.parents, x, c, last);
        assert false;
      }
      assert names == init + [last];
      assert UnderOne(b.parents, x, names) <==> UnderOne(b.parents, x, init) || Under(b.parents, x, last);
    }
  }

  /** Every group's chain ends at a root. */
  lemma {:induction false} HasRoot(b: Book, x: string, seen: set<string>) returns (root: string)
    requires b.Valid() && x in b.parents && x !in seen
    requires forall y | y in seen :: StrictlyUnder(b.parents, y, x)
    ensures root in b.parents && Attached(b.parents, root).None? && Under(b.parents, x, root)
    decreases |b.parents.Keys - seen|
  {
    assert Above(b.parents, x, 0) == Some(x);
    if Attached(b.parents, x).None? {
      root := x;
    } else {
      var p := Attached(b.parents, x).value;
      assert Above(b.parents, x, 1) == Some(p);
      forall y | y in seen + {x}
        ensures StrictlyUnder(b.parents, y, p) && y != p
      {
        var n: nat :| Above(b.parents, y, n) == Some(x);
        assert Above(b.parents, y, n + 1) == Some(p);
        NoForestCycle(b.parents, y, n + 1);
      }
      assert b.parents.Keys - (seen + {x}) == b.parents.Keys - seen - {x};
      root := HasRoot(b, p, seen + {x});
      var n: nat :| Above(b.parents, p, n) == Some(root);
      AboveAbove(b.parents, x, 1, n);
    }
  }

  /** Nothing is lost and nothing is placed twice: the forest holds every group exactly once. */
  lemma {:induction false} ForestHoldsEveryGroupOnce(b: Book, x: string)
    requires b.Valid() && x in b.parents
    ensures OccursIn(ForestOf(b), x) == 1
  {
    RootsArePlaced(b);
    HangingExactly(b.parents, b.order, None);
    TreesHoldOnce(b, Roots(b), {}, None, x);
    var root := HasRoot(b, x, {});
    assert root in Roots(b);
  }

  lemma {:induction false} TreesNameGroups(b: Book, names: seq<string>, path: set<string>, x: string)
    requires b.Valid() && x !in b.parents && forall n | n in names :: Placed(b, n, path)
    ensures OccursIn(BuildAll(b, names, path), x) == 0
    decreases |b.parents.Keys - path|, |names|
  {
    if names != [] {
      var init, last := Init(names), Last(names);
      TreesNameGroups(b, init, path, x);
      ChildrenArePlaced(b, last, path);
      PathShrinks(b, last, path);
      TreesNameGroups(b, Hanging(b.parents, b.order, Some(last)), path + {last}, x);
      InitLast(BuildAll(b, init, path), Build(b, last, path));
    }
  }

  /** And it holds nothing else. */
  lemma {:induction false} ForestHoldsOnlyGroups(b: Book, x: string)
    requires b.Valid() && x !in b.parents
    ensures OccursIn(ForestOf(b), x) == 0
  {
    RootsArePlaced(b);
    TreesNameGroups(b, Roots(b), {}, x);
  }

  /** Every child in the tree hangs from the group it is shown under. */
  ghost predicate FollowsParents(parents: Parents, t: Tree) {
    forall i | 0 <= i < |t.children| ::
      Attached(parents, t.children[i].name) == Some(t.name) && FollowsParents(parents, t.children[i])
  }

  ghost predicate AllFollowParents(parents: Parents, names: seq<string>, ts: seq<Tree>) {
    |ts| == |names| && forall i | 0 <= i < |ts| :: ts[i].name == names[i] && FollowsParents(parents, ts[i])
  }

  lemma {:induction false} TreeFollowsParents(b: Book, name: string, path: set<string>)
    requires b.Valid() && Placed(b, name, path)
    ensures FollowsParents(b.parents, Build(b, name, path))
    decreases |b.parents.Keys - path|, 0
  {
    var kids := Hanging(b.parents, b.order, Some(name));
    ChildrenArePlaced(b, name, path);
    PathShrinks(b, name, path);
    HangingExactly(b.parents, b.order, Some(name));
    TreesFollowParents(b, kids, path + {name});
    var t := Build(b, name, path);
    assert t.name == name && t.children == BuildAll(b, kids, path + {name});
    forall i | 0 <= i < |kids|
      ensures Attached(b.parents, t.children[i].name) == Some(t.name) && FollowsParents(b.parents, t.children[i])
    {
      assert kids[i] in kids && t.children[i].name == kids[i];
    }
  }

  lemma {:induction false} TreesFollowParents(b: Book, names: seq<string>, path: set<string>)
    requires b.Valid() && forall n | n in names :: Placed(b, n, path)
    ensures AllFollowParents(b.parents, names, BuildAll(b, names, path))
    decreases |b.parents.Keys - path|, |names| + 1
  {
    if names != [] {
      TreesFollowParents(b, Init(names), path);
      TreeFollowsParents(b, Last(names), path);
    }
  }

  ghost predicate IsRoot(ts: seq<Tree>, x: string) {
    exists i :: 0 <= i < |ts| && ts[i].name == x
  }

  lemma {:induction false} RootsExactly(b: Book, x: string)
    requires b.Valid()
    requires |ForestOf(b)| == |Roots(b)| && forall i | 0 <= i < |Roots(b)| :: ForestOf(b)[i].name == Roots(b)[i]
    ensures IsRoot(ForestOf(b), x) <==> x in b.parents && Attached(b.parents, x).None?
  {
    HangingExactly(b.parents, b.order, None);
    if x in Roots(b) {
      var i :| 0 <= i < |Roots(b)| && Roots(b)[i] == x;
      assert ForestOf(b)[i].name == x;
    }
  }

  /** A group is a root exactly where it can be attached to nothing, and hangs from its parent everywhere else. */
  lemma {:induction false} ForestFollowsParents(b: Book)
    requires b.Valid()
    ensures forall x :: IsRoot(ForestOf(b), x) <==> x in b.parents && Attached(b.parents, x).None?
    ensures forall i | 0 <= i < |ForestOf(b)| :: FollowsParents(b.parents, ForestOf(b)[i])
  {
    RootsArePlaced(b);
    TreesFollowParents(b, Roots(b), {});
    forall x
      ensures IsRoot(ForestOf(b), x) <==> x in b.parents && Attached(b.parents, x).None?
    {
      RootsExactly(b, x);
    }
  }
}
