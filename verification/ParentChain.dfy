/**
 * Group parents as the user may have edited them: any map of names, cycles included
 * (packages/viewmodel/src/cards.ts).
 */
module ParentChain {

  type Parents = map<string, string>

  /** The recorded parent, the empty string where there is none. */
  function ParentOf(parents: Parents, name: string): string {
    if name in parents then parents[name] else ""
  }

  /** The n-th ancestor; once a chain has ended it stays the empty string. */
  function Up(parents: Parents, name: string, n: nat): string {
    if n == 0 then name
    else
      var above := Up(parents, name, n - 1);
      if n > 1 && above == "" then "" else ParentOf(parents, above)
  }

  /** Following parents from `name` comes back to `name`. */
  ghost predicate OnCycle(parents: Parents, name: string) {
    name != "" && exists n | n > 0 :: Up(parents, name, n) == name
  }

  lemma {:induction false} UpStaysEnded(parents: Parents, name: string, m: nat, n: nat)
    requires 0 < m <= n && Up(parents, name, m) == ""
    ensures Up(parents, name, n) == ""
    decreases n
  {
    if m < n {
      UpStaysEnded(parents, name, m, n - 1);
    }
  }

  /** Climbing in two stages. */
  lemma {:induction false} UpUp(parents: Parents, name: string, m: nat, n: nat)
    requires Up(parents, name, m) != ""
    ensures Up(parents, name, m + n) == Up(parents, Up(parents, name, m), n)
    decreases n
  {
    if n > 0 {
      UpUp(parents, name, m, n - 1);
    }
  }

  /** Once a chain repeats itself it goes round among the names it has already passed. */
  lemma {:induction false} ChainGoesRound(parents: Parents, name: string, i: nat, j: nat, n: nat)
    requires i < j <= n && Up(parents, name, i) == Up(parents, name, j) != ""
    ensures exists k :: i <= k < j && Up(parents, name, k) == Up(parents, name, n)
    decreases n
  {
    if n == j {
      assert Up(parents, name, i) == Up(parents, name, n);
    } else if n - (j - i) < j {
      UpUp(parents, name, i, n - j);
      UpUp(parents, name, j, n - j);
      assert Up(parents, name, n - (j - i)) == Up(parents, name, n);
    } else {
      UpUp(parents, name, i, n - j);
      UpUp(parents, name, j, n - j);
      ChainGoesRound(parents, name, i, j, n - (j - i));
    }
  }

  lemma {:induction false} UpIsKnown(parents: Parents, name: string, n: nat)
    ensures Up(parents, name, n) in Known(parents, name)
  {
    if n > 0 {
      UpIsKnown(parents, name, n - 1);
    }
  }

  /** A chain that ran into itself elsewhere never comes back. */
  lemma {:induction false} NeverBack(parents: Parents, name: string, i: nat, j: nat)
    requires 0 < i < j && Up(parents, name, i) == Up(parents, name, j) != ""
    requires forall k | 0 < k < j :: Up(parents, name, k) != name
    ensures !OnCycle(parents, name)
  {
    forall n | n > 0
      ensures Up(parents, name, n) != name
    {
      if n >= j {
        ChainGoesRound(parents, name, i, j, n);
      }
    }
  }

  /** A chain that ended without passing `name` never comes back. */
  lemma {:induction false} EndedIsNotBack(parents: Parents, name: string, j: nat)
    requires 0 < j && Up(parents, name, j) == ""
    requires forall k | 0 < k < j :: Up(parents, name, k) != name
    ensures !OnCycle(parents, name)
  {
    forall n | n >= j
      ensures Up(parents, name, n) == ""
    {
      UpStaysEnded(parents, name, j, n);
    }
  }

  /** `x` is among the first n names of the chain. */
  ghost predicate Passed(parents: Parents, name: string, n: nat, x: string) {
    exists k | 0 <= k < n :: Up(parents, name, k) == x
  }

  lemma {:induction false} PassedNext(parents: Parents, name: string, n: nat)
    ensures Passed(parents, name, n + 1, Up(parents, name, n))
    ensures forall x | Passed(parents, name, n, x) :: Passed(parents, name, n + 1, x)
  {
  }

  /** Every name a chain can reach. */
  function Known(parents: Parents, name: string): set<string> {
    parents.Keys + parents.Values + {name, ""}
  }

  /** The first n names of the chain have been seen, none of them the end or `name` come back. */
  ghost predicate Walked(parents: Parents, name: string, n: nat, seen: set<string>) {
    && n > 0
    && (forall k | 0 < k < n :: Up(parents, name, k) != name && Up(parents, name, k) != "")
    && (forall x | x in seen :: Passed(parents, name, n, x))
    && seen <= Known(parents, name)
  }

  lemma {:induction false} WalkStarts(parents: Parents, name: string)
    ensures Walked(parents, name, 1, {name}) && Up(parents, name, 1) == ParentOf(parents, name)
  {
    PassedNext(parents, name, 0);
    assert Up(parents, name, 0) == name;
  }

  lemma {:induction false} WalkGoesOn(parents: Parents, name: string, n: nat, seen: set<string>, cur: string)
    requires Walked(parents, name, n, seen) && cur == Up(parents, name, n)
    requires cur != "" && cur != name && cur !in seen
    ensures Walked(parents, name, n + 1, seen + {cur}) && Up(parents, name, n + 1) == ParentOf(parents, cur)
    ensures |Known(parents, name) - (seen + {cur})| < |Known(parents, name) - seen|
  {
    UpIsKnown(parents, name, n);
    PassedNext(parents, name, n);
    assert Known(parents, name) - (seen + {cur}) == Known(parents, name) - seen - {cur};
  }

  lemma {:induction false} SeenTwice(parents: Parents, name: string, n: nat, seen: set<string>, cur: string)
    requires Walked(parents, name, n, seen) && cur == Up(parents, name, n)
    requires cur != "" && cur != name && cur in seen
    ensures !OnCycle(parents, name)
  {
    var k :| 0 <= k < n && Up(parents, name, k) == cur;
    assert Up(parents, name, 0) == name;
    NeverBack(parents, name, k, n);
  }

  method IsOnParentCycle(name: string, parents: Parents) returns (yes: bool)
    ensures yes <==> OnCycle(parents, name)
  {
    var seen := {name};
    var cur := ParentOf(parents, name);
    ghost var n: nat := 1;
    WalkStarts(parents, name);
    while cur != ""
      invariant Walked(parents, name, n, seen) && cur == Up(parents, name, n)
      decreases |Known(parents, name) - seen|
    {
      if cur == name {
        return true;
      }
      if cur in seen {
        SeenTwice(parents, name, n, seen, cur);
        return false;
      }
      WalkGoesOn(parents, name, n, seen, cur);
      seen := seen + {cur};
      cur := ParentOf(parents, cur);
      n := n + 1;
    }
    EndedIsNotBack(parents, name, n);
    return false;
  }
}
