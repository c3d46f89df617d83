/** Small facts about sequences and finite sets. */
module Seqs {

  function Last<T>(s: seq<T>): T
    requires s != []
  {
    s[|s| - 1]
  }

  function Init<T>(s: seq<T>): seq<T>
    requires s != []
  {
    s[..|s| - 1]
  }

  lemma {:induction false} InitLast<T>(s: seq<T>, t: T)
    ensures s + [t] != [] && Init(s + [t]) == s && Last(s + [t]) == t
  {
  }

  /** A finite set is no larger than one it is contained in. */
  lemma {:induction false} SubsetSize<T>(a: set<T>, b: set<T>)
    requires a <= b
    ensures |a| <= |b|
  {
    if a != {} {
      var x :| x in a;
      SubsetSize(a - {x}, b - {x});
    }
  }
}
