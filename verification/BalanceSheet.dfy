/** The balance sheet tree, built in place from flat rows (packages/viewmodel/src/cards.ts). */
module BalanceSheet {
  import opened Wrappers
  import opened Seqs
  import opened Money
  import opened ParentChain
  import opened Forest

  datatype GroupBalance = GroupBalance(group: string, parent: string, closing: string, isRevenue: bool)

  class TreeNode {
    const name: string
    const amount: int
    var children: seq<TreeNode>

    constructor (name: string, amount: int)
      ensures this.name == name && this.amount == amount && children == []
    {
      this.name, this.amount, children := name, amount, [];
    }
  }

  function Closing(r: GroupBalance): Result<int, Failure> {
    match ParseAmountToPaise(r.closing)
    case Ok(n) => Ok(n.Value())
    case Err(e) => Err(e)
  }

  function Worth(r: GroupBalance): int {
    if Closing(r).Ok? then Closing(r).value else 0
  }

  function Sheet(rows: seq<GroupBalance>): seq<GroupBalance> {
    if rows == [] then [] else Sheet(Init(rows)) + if Last(rows).isRevenue then [] else [Last(rows)]
  }

  /** The last row of a group speaks for it; the first decides its place. */
  function BookOf(sheet: seq<GroupBalance>): Book {
    if sheet == [] then Book([], map[], map[])
    else
      var b, r := BookOf(Init(sheet)), Last(sheet);
      Book(if r.group in b.parents then b.order else b.order + [r.group],
           b.parents[r.group := r.parent], b.amounts[r.group := Worth(r)])
  }

  lemma {:induction false} BookIsValid(sheet: seq<GroupBalance>)
    ensures BookOf(sheet).Valid()
  {
    if sheet != [] {
      BookIsValid(Init(sheet));
      var b, r := BookOf(Init(sheet)), Last(sheet);
      if r.group !in b.parents {
        assert forall n :: n in b.order + [r.group] <==> n in b.order || n == r.group;
      }
    }
  }

  type Nodes = map<string, TreeNode>

  /** One object per group, saying what the book says of it. */
  ghost predicate OneNodeEach(b: Book, nodes: Nodes) {
    && nodes.Keys == b.parents.Keys && b.Valid()
    && (forall m, n | m in nodes && n in nodes && m != n :: nodes[m] != nodes[n])
    && (forall n | n in nodes :: nodes[n].name == n && nodes[n].amount == b.amounts[n])
  }

  /** The objects of the named groups, in order. */
  ghost predicate Lists(nodes: Nodes, objects: seq<TreeNode>, names: seq<string>) {
    |objects| == |names| && forall i | 0 <= i < |names| :: names[i] in nodes && objects[i] == nodes[names[i]]
  }

  /** The first `done` groups have been hung. */
  ghost predicate Hung(b: Book, nodes: Nodes, done: nat)
    requires done <= |b.order|
    reads nodes.Values
  {
    forall n | n in nodes :: Lists(nodes, nodes[n].children, Hanging(b.parents, b.order[..done], Some(n)))
  }

  lemma {:induction false} NodesStep(sheet: seq<GroupBalance>, row: GroupBalance, nodes: Nodes, node: TreeNode)
    requires OneNodeEach(BookOf(sheet), nodes) && forall n | n in nodes :: nodes[n] != node
    requires node.name == row.group && node.amount == Worth(row)
    ensures OneNodeEach(BookOf(sheet + [row]), nodes[row.group := node])
  {
    InitLast(sheet, row);
    BookIsValid(sheet + [row]);
  }

  ghost predicate AllRead(sheet: seq<GroupBalance>) {
    forall i | 0 <= i < |sheet| :: Closing(sheet[i]).Ok?
  }

  ghost predicate Childless(nodes: Nodes)
    reads nodes.Values
  {
    forall n | n in nodes :: nodes[n].children == []
  }

  lemma {:induction false} BookStep(sheet: seq<GroupBalance>, i: nat)
    requires i < |sheet|
    ensures var b, r, next := BookOf(sheet[..i]), sheet[i], BookOf(sheet[..i + 1]);
            && sheet[..i + 1] == sheet[..i] + [r]
            && next.order == (if r.group in b.parents then b.order else b.order + [r.group])
            && next.parents == b.parents[r.group := r.parent]
    ensures AllRead(sheet[..i + 1]) <==> AllRead(sheet[..i]) && Closing(sheet[i]).Ok?
  {
    assert sheet[..i + 1] == sheet[..i] + [sheet[i]];
    InitLast(sheet[..i], sheet[i]);
  }

  method AddNode(ghost sheet: seq<GroupBalance>, row: GroupBalance, amount: int, nodes: Nodes) returns (nodes': Nodes)
    requires OneNodeEach(BookOf(sheet), nodes) && Childless(nodes) && amount == Worth(row)
    ensures OneNodeEach(BookOf(sheet + [row]), nodes') && Childless(nodes')
    ensures forall n | n in nodes' :: (n in nodes && nodes'[n] == nodes[n]) || fresh(nodes'[n])
  {
    var node := new TreeNode(row.group, amount);
    NodesStep(sheet, row, nodes, node);
    nodes' := nodes[row.group := node];
  }

  method ReadRows(sheet: seq<GroupBalance>)
    returns (failure: Option<Failure>, order: seq<string>, parents: Parents, nodes: Nodes)
    ensures failure.None? <==> AllRead(sheet)
    ensures failure.None? ==>
              && order == BookOf(sheet).order && parents == BookOf(sheet).parents
              && OneNodeEach(BookOf(sheet), nodes) && Childless(nodes)
              && forall n | n in nodes :: fresh(nodes[n])
  {
    failure, order, parents, nodes := None, [], map[], map[];
    for i := 0 to |sheet|
      invariant order == BookOf(sheet[..i]).order && parents == BookOf(sheet[..i]).parents
      invariant OneNodeEach(BookOf(sheet[..i]), nodes)
      invariant Childless(nodes) && forall n | n in nodes :: fresh(nodes[n])
      invariant AllRead(sheet[..i]) && failure.None?
    {
      var row := sheet[i];
      BookStep(sheet, i);
      var closing := Closing(row);
      if closing.Err? {
        failure := Some(closing.error);
        return;
      }
      nodes := AddNode(sheet[..i], row, closing.value, nodes);
      if row.group !in parents {
        order := order + [row.group];
      }
      parents := parents[row.group := row.parent];
    }
    assert sheet[..|sheet|] == sheet;
  }

  lemma {:induction false} HangingStep(b: Book, done: nat, from: Option<string>)
    requires done < |b.order|
    ensures Hanging(b.parents, b.order[..done + 1], from) ==
            Hanging(b.parents, b.order[..done], from) +
            if Attached(b.parents, b.order[done]) == from then [b.order[done]] else []
  {
    assert b.order[..done + 1] == b.order[..done] + [b.order[done]];
    InitLast(b.order[..done], b.order[done]);
  }

  /** What hanging one more group must have done to the object lists. */
  lemma {:induction false} ListsStep(b: Book, nodes: Nodes, done: nat, from: Option<string>,
                                     before: seq<TreeNode>, after: seq<TreeNode>)
    requires done < |b.order| && b.order[done] in nodes
    requires Lists(nodes, before, Hanging(b.parents, b.order[..done], from))
    requires after == if Attached(b.parents, b.order[done]) == from then before + [nodes[b.order[done]]] else before
    ensures Lists(nodes, after, Hanging(b.parents, b.order[..done + 1], from))
  {
    HangingStep(b, done, from);
  }

  /** Hangs one group under another: one object changes. */
  method Hang(ghost b: Book, nodes: Nodes, ghost done: nat, node: TreeNode, parentName: string)
    requires OneNodeEach(b, nodes) && done < |b.order| && Hung(b, nodes, done)
    requires b.order[done] in nodes && node == nodes[b.order[done]]
    requires parentName in nodes && Attached(b.parents, b.order[done]) == Some(parentName)
    modifies nodes[parentName]
    ensures Hung(b, nodes, done + 1)
  {
    var parent := nodes[parentName];
    parent.children := parent.children + [node];
    forall n | n in nodes
      ensures Lists(nodes, nodes[n].children, Hanging(b.parents, b.order[..done + 1], Some(n)))
    {
      ListsStep(b, nodes, done, Some(n), old(nodes[n].children), nodes[n].children);
    }
  }

  lemma {:induction false} RootChangesNothing(b: Book, nodes: Nodes, done: nat)
    requires OneNodeEach(b, nodes) && done < |b.order| && Hung(b, nodes, done)
    requires b.order[done] in nodes && Attached(b.parents, b.order[done]).None?
    ensures Hung(b, nodes, done + 1)
  {
    forall n | n in nodes
      ensures Lists(nodes, nodes[n].children, Hanging(b.parents, b.order[..done + 1], Some(n)))
    {
      ListsStep(b, nodes, done, Some(n), nodes[n].children, nodes[n].children);
    }
  }

  /** Hangs every group under its parent, or among the roots. */
  method HangAll(ghost b: Book, order: seq<string>, parents: Parents, nodes: Nodes) returns (roots: seq<TreeNode>)
    requires OneNodeEach(b, nodes) && order == b.order && parents == b.parents
    requires forall n | n in nodes :: nodes[n].children == []
    modifies nodes.Values
    ensures Hung(b, nodes, |b.order|) && Lists(nodes, roots, Roots(b))
  {
    roots := [];
    for i := 0 to |order|
      invariant Hung(b, nodes, i)
      invariant Lists(nodes, roots, Hanging(b.parents, b.order[..i], None))
    {
      var name := order[i];
      assert name in b.order && name in nodes;
      var node, parentName := nodes[name], parents[name];
      ghost var before := roots;
      var onCycle := IsOnParentCycle(name, parents);
      if parentName == "" {
        roots := roots + [node];
        RootChangesNothing(b, nodes, i);
      } else if parentName in nodes && !onCycle {
        Hang(b, nodes, i, node, parentName);
      } else {
        roots := roots + [node];
        RootChangesNothing(b, nodes, i);
      }
      ListsStep(b, nodes, i, None, before, roots);
    }
    assert b.order[..|b.order|] == b.order;
  }

  // ------------------------------------------------------------------ what the objects are

  /** The object and everything below it read as the tree. */
  ghost predicate Shows(nodes: Nodes, node: TreeNode, t: Tree)
    reads nodes.Values
    decreases t
  {
    && node in nodes.Values && node.name == t.name && node.amount == t.amount
    && |node.children| == |t.children|
    && forall i | 0 <= i < |t.children| :: Shows(nodes, node.children[i], t.children[i])
  }

  ghost predicate ShowAll(nodes: Nodes, objects: seq<TreeNode>, ts: seq<Tree>)
    reads nodes.Values
  {
    |objects| == |ts| && forall i | 0 <= i < |ts| :: Shows(nodes, objects[i], ts[i])
  }

  lemma {:induction false} NodeShows(b: Book, nodes: Nodes, name: string, path: set<string>)
    requires OneNodeEach(b, nodes) && Hung(b, nodes, |b.order|) && Placed(b, name, path)
    ensures name in nodes && Shows(nodes, nodes[name], Build(b, name, path))
    decreases |b.parents.Keys - path|, 0
  {
    var kids := Hanging(b.parents, b.order, Some(name));
    ChildrenArePlaced(b, name, path);
    PathShrinks(b, name, path);
    assert b.order[..|b.order|] == b.order;
    NodesShow(b, nodes, nodes[name].children, kids, path + {name});
  }

  lemma {:induction false} NodesShow(b: Book, nodes: Nodes, objects: seq<TreeNode>, names: seq<string>,
                                     path: set<string>)
    requires OneNodeEach(b, nodes) && Hung(b, nodes, |b.order|) && Lists(nodes, objects, names)
    requires forall n | n in names :: Placed(b, n, path)
    ensures ShowAll(nodes, objects, BuildAll(b, names, path))
    decreases |b.parents.Keys - path|, |names| + 1
  {
    if names != [] {
      NodesShow(b, nodes, Init(objects), Init(names), path);
      NodeShows(b, nodes, Last(names), path);
    }
  }

  // ------------------------------------------------------------------ what the forest says of the rows

  ghost predicate HasGroup(rows: seq<GroupBalance>, x: string) {
    exists i | 0 <= i < |rows| :: !rows[i].isRevenue && rows[i].group == x
  }

  lemma {:induction false} BookHasSheetGroups(rows: seq<GroupBalance>, x: string)
    ensures x in BookOf(Sheet(rows)).parents <==> HasGroup(rows, x)
  {
    if rows != [] {
      BookHasSheetGroups(Init(rows), x);
      InitLast(Sheet(Init(rows)), Last(rows));
      assert Sheet(Init(rows)) + [] == Sheet(Init(rows));
      OneRowMore(Init(rows), Last(rows), x);
      assert rows == Init(rows) + [Last(rows)];
    }
  }

  lemma {:induction false} OneRowMore(rows: seq<GroupBalance>, r: GroupBalance, x: string)
    ensures HasGroup(rows + [r], x) <==> HasGroup(rows, x) || (!r.isRevenue && r.group == x)
  {
    var more := rows + [r];
    assert more[|rows|] == r;
    assert forall i | 0 <= i < |rows| :: more[i] == rows[i];
  }

  /** Whatever the parents say, every distinct non-revenue group is in the forest once, and nothing else is. */
  lemma {:induction false} EveryGroupIsShownOnce(rows: seq<GroupBalance>, x: string)
    ensures BookOf(Sheet(rows)).Valid()
    ensures OccursIn(ForestOf(BookOf(Sheet(rows))), x) == if HasGroup(rows, x) then 1 else 0
  {
    var b := BookOf(Sheet(rows));
    BookIsValid(Sheet(rows));
    BookHasSheetGroups(rows, x);
    if HasGroup(rows, x) {
      ForestHoldsEveryGroupOnce(b, x);
    } else {
      ForestHoldsOnlyGroups(b, x);
    }
  }

  /** Row `i` is the group's last on the sheet. */
  ghost predicate LastRow(rows: seq<GroupBalance>, x: string, i: nat) {
    && i < |rows| && !rows[i].isRevenue && rows[i].group == x
    && forall j | i < j < |rows| :: rows[j].isRevenue || rows[j].group != x
  }

  /** Row `i` is the group's first on the sheet. */
  ghost predicate FirstRow(rows: seq<GroupBalance>, x: string, i: nat) {
    && i < |rows| && !rows[i].isRevenue && rows[i].group == x
    && forall j | 0 <= j < i :: rows[j].isRevenue || rows[j].group != x
  }

  lemma {:induction false} SaidIsWorth(r: GroupBalance, paise: int)
    requires Says(r.closing, paise)
    ensures Worth(r) == paise
  {
    ParsePrintRoundTrip(FromInt(paise));
  }

  /** Every group on the sheet with the parent its last row names, and nothing else. */
  ghost predicate ParentsSaid(rows: seq<GroupBalance>, parents: Parents) {
    && (forall x :: x in parents <==> HasGroup(rows, x))
    && (forall x, i: nat | x in parents && LastRow(rows, x, i) :: parents[x] == rows[i].parent)
  }

  ghost predicate Within(ts: seq<Tree>, t: Tree) {
    exists i :: 0 <= i < |ts| && (ts[i] == t || Within(ts[i].children, t))
  }

  ghost predicate NamesInOrder(rows: seq<GroupBalance>, names: seq<string>) {
    forall j, k, m: nat, n: nat |
      0 <= j < k < |names| && FirstRow(rows, names[j], m) && FirstRow(rows, names[k], n) :: m < n
  }

  function NamesOf(ts: seq<Tree>): seq<string> {
    seq(|ts|, i requires 0 <= i < |ts| => ts[i].name)
  }

  /** A node shows what its group's last row says, over the groups attached to it in order of first appearance. */
  ghost predicate NodeSays(rows: seq<GroupBalance>, t: Tree) {
    && HasGroup(rows, t.name)
    && (forall i: nat, paise | LastRow(rows, t.name, i) && Says(rows[i].closing, paise) :: t.amount == paise)
    && NamesInOrder(rows, NamesOf(t.children))
    && (forall parents, c | ParentsSaid(rows, parents) && c in NamesOf(t.children) ::
          Attached(parents, c) == Some(t.name))
  }

  /** The trees hold each group of the sheet once and say what its rows say. */
  ghost predicate IsSheetOf(rows: seq<GroupBalance>, ts: seq<Tree>) {
    && (forall x :: OccursIn(ts, x) == if HasGroup(rows, x) then 1 else 0)
    && (forall t | Within(ts, t) :: NodeSays(rows, t))
    && NamesInOrder(rows, NamesOf(ts))
    && (forall parents, c | ParentsSaid(rows, parents) && c in NamesOf(ts) :: Attached(parents, c).None?)
  }

  // ------------------------------------------------------------------ the book says what the rows say

  lemma {:induction false} RowsMore(rows: seq<GroupBalance>, x: string, i: nat)
    requires rows != []
    ensures var r := Last(rows);
            LastRow(rows, x, i) <==>
            if !r.isRevenue && r.group == x then i == |rows| - 1 else LastRow(Init(rows), x, i)
    ensures var r := Last(rows);
            FirstRow(rows, x, i) <==>
            FirstRow(Init(rows), x, i) || (!HasGroup(Init(rows), x) && i == |rows| - 1 && !r.isRevenue && r.group == x)
  {
    var init := Init(rows);
    assert forall j | 0 <= j < |init| :: init[j] == rows[j];
  }

  /** The book says of each group what its last row says. */
  lemma {:induction false} BookSays(rows: seq<GroupBalance>, x: string, i: nat)
    requires LastRow(rows, x, i)
    ensures x in BookOf(Sheet(rows)).parents && BookOf(Sheet(rows)).parents[x] == rows[i].parent
    ensures BookOf(Sheet(rows)).Valid() && BookOf(Sheet(rows)).amounts[x] == Worth(rows[i])
    decreases |rows|
  {
    var r := Last(rows);
    BookIsValid(Sheet(rows));
    RowsMore(rows, x, i);
    if r.isRevenue {
      assert Sheet(rows) == Sheet(Init(rows)) + [] == Sheet(Init(rows));
      BookSays(Init(rows), x, i);
    } else {
      InitLast(Sheet(Init(rows)), r);
      if r.group != x {
        BookSays(Init(rows), x, i);
      }
    }
  }

  /** The book's order is that of first appearance. */
  lemma {:induction false} BookOrder(rows: seq<GroupBalance>)
    ensures NamesInOrder(rows, BookOf(Sheet(rows)).order)
    decreases |rows|
  {
    if rows != [] {
      var init, r := Init(rows), Last(rows);
      BookOrder(init);
      BookIsValid(Sheet(init));
      var order, order' := BookOf(Sheet(init)).order, BookOf(Sheet(rows)).order;
      if r.isRevenue {
        assert Sheet(rows) == Sheet(init) + [] == Sheet(init);
      } else {
        InitLast(Sheet(init), r);
      }
      assert order' == order || order' == order + [r.group];
      forall j, k, m: nat, n: nat |
          0 <= j < k < |order'| && FirstRow(rows, order'[j], m) && FirstRow(rows, order'[k], n)
        ensures m < n
      {
        OrderStep(rows, j, k, m, n);
      }
    }
  }

  lemma {:induction false} NotYetFirst(rows: seq<GroupBalance>, x: string, i: nat)
    requires !HasGroup(rows, x)
    ensures !FirstRow(rows, x, i)
  {
  }

  lemma {:induction false} OrderStep(rows: seq<GroupBalance>, j: nat, k: nat, m: nat, n: nat)
    requires rows != [] && NamesInOrder(Init(rows), BookOf(Sheet(Init(rows))).order)
    requires var order, order' := BookOf(Sheet(Init(rows))).order, BookOf(Sheet(rows)).order;
             && (order' == order || order' == order + [Last(rows).group])
             && j < k < |order'| && FirstRow(rows, order'[j], m) && FirstRow(rows, order'[k], n)
    ensures m < n
  {
    var init, order, order' := Init(rows), BookOf(Sheet(Init(rows))).order, BookOf(Sheet(rows)).order;
    BookIsValid(Sheet(init));
    RowsMore(rows, order'[j], m);
    RowsMore(rows, order'[k], n);
    assert order'[j] == order[j] && order[j] in order;
    BookHasSheetGroups(init, order[j]);
    assert FirstRow(init, order'[j], m);
    if k < |order| {
      assert order'[k] == order[k] && order[k] in order;
      BookHasSheetGroups(init, order[k]);
      assert FirstRow(init, order'[k], n);
    } else {
      BookIsValid(Sheet(rows));
      assert order'[k] == Last(rows).group;
      assert forall i | 0 <= i < |order| :: order[i] == order'[i] && order'[i] != order'[k];
      BookHasSheetGroups(init, order'[k]);
      assert !HasGroup(init, order'[k]);
      NotYetFirst(init, order'[k], n);
    }
  }

  /** The last name first appears after the one. */
  ghost predicate Before(rows: seq<GroupBalance>, x: string, y: string) {
    forall m: nat, n: nat | FirstRow(rows, x, m) && FirstRow(rows, y, n) :: m < n
  }

  ghost predicate InPairs(rows: seq<GroupBalance>, names: seq<string>) {
    forall j, k | 0 <= j < k < |names| :: Before(rows, names[j], names[k])
  }

  lemma {:induction false} InOrderByPairs(rows: seq<GroupBalance>, names: seq<string>)
    ensures NamesInOrder(rows, names) <==> InPairs(rows, names)
  {
    if NamesInOrder(rows, names) {
      forall j, k | 0 <= j < k < |names|
        ensures Before(rows, names[j], names[k])
      {
      }
    }
  }

  lemma {:induction false} OneMoreInPairs(rows: seq<GroupBalance>, names: seq<string>, last: string)
    requires InPairs(rows, names) && forall n | n in names :: Before(rows, n, last)
    ensures InPairs(rows, names + [last])
  {
    var more := names + [last];
    forall j, k | 0 <= j < k < |more|
      ensures Before(rows, more[j], more[k])
    {
      assert more[j] == names[j] && names[j] in names;
    }
  }

  lemma {:induction false} LastAfterInit(rows: seq<GroupBalance>, names: seq<string>)
    requires names != [] && InPairs(rows, names)
    ensures InPairs(rows, Init(names)) && forall n | n in Init(names) :: n in names && Before(rows, n, Last(names))
  {
    forall n | n in Init(names)
      ensures n in names && Before(rows, n, Last(names))
    {
      var i :| 0 <= i < |Init(names)| && Init(names)[i] == n;
      assert names[i] == n && names[|names| - 1] == Last(names);
    }
  }

  lemma {:induction false} HangingKeepsPairs(rows: seq<GroupBalance>, parents: Parents, names: seq<string>,
                                             from: Option<string>)
    requires InPairs(rows, names)
    ensures InPairs(rows, Hanging(parents, names, from))
    ensures forall n | n in Hanging(parents, names, from) :: n in names
  {
    if names != [] {
      var hung := Hanging(parents, Init(names), from);
      LastAfterInit(rows, names);
      HangingKeepsPairs(rows, parents, Init(names), from);
      OneMoreInPairs(rows, hung, Last(names));
      assert hung + [] == hung && names[|names| - 1] == Last(names);
    }
  }

  lemma {:induction false} HangingInOrder(rows: seq<GroupBalance>, parents: Parents, names: seq<string>,
                                          from: Option<string>)
    requires NamesInOrder(rows, names)
    ensures NamesInOrder(rows, Hanging(parents, names, from))
  {
    InOrderByPairs(rows, names);
    HangingKeepsPairs(rows, parents, names, from);
    InOrderByPairs(rows, Hanging(parents, names, from));
  }

  lemma {:induction false} WithinOneMore(ts: seq<Tree>, top: Tree, t: Tree)
    requires Within(ts + [top], t)
    ensures Within(ts, t) || t == top || Within(top.children, t)
  {
    var all := ts + [top];
    var i :| 0 <= i < |all| && (all[i] == t || Within(all[i].children, t));
    if i < |ts| {
      assert ts[i] == all[i];
    }
  }

  /** Whatever stands in the forest was built for its own name. */
  lemma {:induction false} WithinIsBuilt(b: Book, names: seq<string>, path: set<string>, t: Tree)
      returns (above: set<string>)
    requires b.Valid() && (forall n | n in names :: Placed(b, n, path)) && Within(BuildAll(b, names, path), t)
    ensures Placed(b, t.name, above) && t == Build(b, t.name, above)
    decreases |b.parents.Keys - path|, |names|
  {
    var init, last := Init(names), Last(names);
    var top := Build(b, last, path);
    WithinOneMore(BuildAll(b, init, path), top, t);
    if Within(BuildAll(b, init, path), t) {
      above := WithinIsBuilt(b, init, path, t);
    } else if t == top {
      above := path;
    } else {
      ChildrenArePlaced(b, last, path);
      PathShrinks(b, last, path);
      above := WithinIsBuilt(b, Hanging(b.parents, b.order, Some(last)), path + {last}, t);
    }
  }

  lemma {:induction false} BuiltNames(b: Book, names: seq<string>, path: set<string>)
    requires b.Valid() && forall n | n in names :: Placed(b, n, path)
    ensures NamesOf(BuildAll(b, names, path)) == names
    decreases |names|
  {
    if names != [] {
      BuiltNames(b, Init(names), path);
      assert names == Init(names) + [Last(names)];
    }
  }

  lemma {:induction false} ParentsAreSaid(rows: seq<GroupBalance>, parents: Parents)
    requires ParentsSaid(rows, parents)
    ensures parents == BookOf(Sheet(rows)).parents
  {
    var b := BookOf(Sheet(rows));
    forall x
      ensures x in parents <==> x in b.parents
      ensures x in parents ==> parents[x] == b.parents[x]
    {
      BookHasSheetGroups(rows, x);
      if x in parents {
        var i := LastRowOf(rows, x);
        BookSays(rows, x, i);
      }
    }
  }

  lemma {:induction false} LastRowOf(rows: seq<GroupBalance>, x: string) returns (i: nat)
    requires HasGroup(rows, x)
    ensures LastRow(rows, x, i)
    decreases |rows|
  {
    var r := Last(rows);
    if !r.isRevenue && r.group == x {
      i := |rows| - 1;
    } else {
      assert rows == Init(rows) + [r];
      OneRowMore(Init(rows), r, x);
      i := LastRowOf(Init(rows), x);
      RowsMore(rows, x, i);
    }
  }

  lemma {:induction false} BuiltNodeSays(rows: seq<GroupBalance>, name: string, above: set<string>)
    requires BookOf(Sheet(rows)).Valid() && Placed(BookOf(Sheet(rows)), name, above)
    ensures NodeSays(rows, Build(BookOf(Sheet(rows)), name, above))
  {
    var b := BookOf(Sheet(rows));
    var t, kids := Build(b, name, above), Hanging(b.parents, b.order, Some(name));
    BookHasSheetGroups(rows, name);
    forall i: nat, paise | LastRow(rows, name, i) && Says(rows[i].closing, paise)
      ensures t.amount == paise
    {
      BookSays(rows, name, i);
      SaidIsWorth(rows[i], paise);
    }
    BookOrder(rows);
    HangingInOrder(rows, b.parents, b.order, Some(name));
    ChildrenArePlaced(b, name, above);
    BuiltNames(b, kids, above + {name});
    HangingExactly(b.parents, b.order, Some(name));
    forall parents, c | ParentsSaid(rows, parents) && c in kids
      ensures Attached(parents, c) == Some(name)
    {
      ParentsAreSaid(rows, parents);
    }
  }

  /**
   * The forest, said of the rows alone: each group once; its amount is what its last row says, sign included; it hangs
   * where that row's parent can be attached; roots and children stand in order of first appearance.
   */
  lemma {:induction false} ForestIsSheetOf(rows: seq<GroupBalance>)
    ensures BookOf(Sheet(rows)).Valid() && IsSheetOf(rows, ForestOf(BookOf(Sheet(rows))))
  {
    var b := BookOf(Sheet(rows));
    BookIsValid(Sheet(rows));
    RootsArePlaced(b);
    var ts := ForestOf(b);
    forall x
      ensures OccursIn(ts, x) == if HasGroup(rows, x) then 1 else 0
    {
      EveryGroupIsShownOnce(rows, x);
    }
    forall t | Within(ts, t)
      ensures NodeSays(rows, t)
    {
      var above := WithinIsBuilt(b, Roots(b), {}, t);
      BuiltNodeSays(rows, t.name, above);
    }
    BookOrder(rows);
    HangingInOrder(rows, b.parents, b.order, None);
    BuiltNames(b, Roots(b), {});
    HangingExactly(b.parents, b.order, None);
    forall parents, c | ParentsSaid(rows, parents) && c in Roots(b)
      ensures Attached(parents, c).None?
    {
      ParentsAreSaid(rows, parents);
    }
  }

  ghost predicate Readable(rows: seq<GroupBalance>) {
    forall i | 0 <= i < |rows| && !rows[i].isRevenue :: ParseAmountToPaise(rows[i].closing).Ok?
  }

  lemma {:induction false} ReadableSheet(rows: seq<GroupBalance>)
    ensures AllRead(Sheet(rows)) <==> Readable(rows)
  {
    if rows != [] {
      var sheet, r := Sheet(Init(rows)), Last(rows);
      ReadableSheet(Init(rows));
      assert rows == Init(rows) + [r];
      if r.isRevenue {
        assert sheet + [] == sheet;
      } else {
        assert forall i | 0 <= i < |sheet| :: (sheet + [r])[i] == sheet[i];
        assert (sheet + [r])[|sheet|] == r;
      }
    }
  }

  /** The returned objects read as trees that say what the rows say; an unreadable amount is an error. */
  method BalanceSheetTree(rows: seq<GroupBalance>)
    returns (r: Result<seq<TreeNode>, Failure>, ghost nodes: Nodes, ghost ts: seq<Tree>)
    ensures r.Ok? <==> Readable(rows)
    ensures r.Ok? ==> ShowAll(nodes, r.value, ts) && IsSheetOf(rows, ts)
  {
    ReadableSheet(rows);
    var failure, order, parents, byName := ReadRows(Sheet(rows));
    nodes, ts := byName, [];
    if failure.Some? {
      return Err(failure.value), nodes, ts;
    }
    ghost var b := BookOf(Sheet(rows));
    var roots := HangAll(b, order, parents, byName);
    RootsArePlaced(b);
    NodesShow(b, nodes, roots, Roots(b), {});
    ForestIsSheetOf(rows);
    r, ts := Ok(roots), ForestOf(b);
  }
}
