/**
 * Profit from revenue groups at every depth, without counting a group inside its parent
 * (packages/viewmodel/src/cards.ts).
 */
module Revenue {
  import opened Wrappers
  import opened Seqs
  import opened ParentChain
  import opened Money

  datatype Row = Row(period: string, group: string, parent: string, amount: string)

  function Paise(r: Row): Result<int, Failure> {
    match ParseAmountToPaise(r.amount)
    case Ok(n) => Ok(n.Value())
    case Err(e) => Err(e)
  }

  /** The amount of a row that has one. */
  function Worth(r: Row): int {
    if Paise(r).Ok? then Paise(r).value else 0
  }

  // ------------------------------------------------------------------ one period

  function ParentsIn(rows: seq<Row>): Parents {
    if rows == [] then map[] else ParentsIn(Init(rows))[Last(rows).group := Last(rows).parent]
  }

  /** Already counted in another row: the parent is in the same pull and the row is on no parent cycle. */
  ghost predicate Contained(parents: Parents, r: Row) {
    r.parent != "" && r.parent in parents && !OnCycle(parents, r.group)
  }

  ghost function Tops(parents: Parents, rows: seq<Row>): seq<Row> {
    if rows == [] then []
    else Tops(parents, Init(rows)) + if Contained(parents, Last(rows)) then [] else [Last(rows)]
  }

  function OfPeriod(rows: seq<Row>, period: string): seq<Row> {
    if rows == [] then []
    else OfPeriod(Init(rows), period) + if Last(rows).period == period then [Last(rows)] else []
  }

  // ------------------------------------------------------------------ all periods

  /** The periods of the rows, in order of first appearance. */
  function Periods(rows: seq<Row>): seq<string> {
    if rows == [] then []
    else
      var before := Periods(Init(rows));
      if Last(rows).period in before then before else before + [Last(rows).period]
  }

  ghost function TopsOf(rows: seq<Row>, period: string): seq<Row> {
    Tops(ParentsIn(OfPeriod(rows, period)), OfPeriod(rows, period))
  }

  ghost function TopsOfAll(rows: seq<Row>, periods: seq<string>): seq<Row> {
    if periods == [] then [] else TopsOfAll(rows, Init(periods)) + TopsOf(rows, Last(periods))
  }

  /** The rows that are summed. */
  ghost function TopRows(rows: seq<Row>): seq<Row> {
    TopsOfAll(rows, Periods(rows))
  }

  function Worths(rows: seq<Row>): seq<int> {
    seq(|rows|, i requires 0 <= i < |rows| => Worth(rows[i]))
  }

  ghost predicate AllParse(rows: seq<Row>) {
    forall i | 0 <= i < |rows| :: Paise(rows[i]).Ok?
  }

  // ------------------------------------------------------------------ the program

  /** `byPeriod` holds the rows of each period that has any. */
  ghost predicate Grouped(order: seq<string>, byPeriod: map<string, seq<Row>>, rows: seq<Row>) {
    && order == Periods(rows)
    && (forall p :: p in order <==> p in byPeriod)
    && (forall p :: PeriodSoFar(byPeriod, p) == OfPeriod(rows, p))
  }

  lemma {:induction false} GroupedStep(order: seq<string>, byPeriod: map<string, seq<Row>>, rows: seq<Row>, r: Row)
    requires Grouped(order, byPeriod, rows)
    ensures Grouped(if r.period in byPeriod then order else order + [r.period],
                    byPeriod[r.period := OfPeriod(rows, r.period) + [r]], rows + [r])
  {
    InitLast(rows, r);
    AppendedIn(order, r.period);
    forall p
      ensures OfPeriod(rows + [r], p) == if p == r.period then OfPeriod(rows, p) + [r] else OfPeriod(rows, p)
    {
      assert OfPeriod(rows, p) + [] == OfPeriod(rows, p);
    }
  }

  lemma {:induction false} AppendedIn(order: seq<string>, period: string)
    ensures forall p :: p in order + [period] <==> p in order || p == period
  {
    assert (order + [period])[|order|] == period;
  }

  function PeriodSoFar(byPeriod: map<string, seq<Row>>, period: string): seq<Row> {
    if period in byPeriod then byPeriod[period] else []
  }

  method GroupByPeriod(rows: seq<Row>) returns (order: seq<string>, byPeriod: map<string, seq<Row>>)
    ensures Grouped(order, byPeriod, rows)
  {
    order, byPeriod := [], map[];
    for i := 0 to |rows|
      invariant Grouped(order, byPeriod, rows[..i])
    {
      var r := rows[i];
      GroupedStep(order, byPeriod, rows[..i], r);
      assert rows[..i + 1] == rows[..i] + [r];
      var cur := PeriodSoFar(byPeriod, r.period);
      if r.period !in byPeriod {
        order := order + [r.period];
      }
      byPeriod := byPeriod[r.period := cur + [r]];
    }
    assert rows[..|rows|] == rows;
  }

  method ReadParents(rows: seq<Row>) returns (parents: Parents)
    ensures parents == ParentsIn(rows)
  {
    parents := map[];
    for i := 0 to |rows|
      invariant parents == ParentsIn(rows[..i])
    {
      assert rows[..i + 1] == rows[..i] + [rows[i]];
      InitLast(rows[..i], rows[i]);
      parents := parents[rows[i].group := rows[i].parent];
    }
    assert rows[..|rows|] == rows;
  }

  lemma {:induction false} NextTop(parents: Parents, rows: seq<Row>, i: nat)
    requires i < |rows|
    ensures var tops := Tops(parents, rows[..i]);
            if Contained(parents, rows[i]) then Tops(parents, rows[..i + 1]) == tops
            else Tops(parents, rows[..i + 1]) == tops + [rows[i]]
                 && Worths(tops + [rows[i]]) == Worths(tops) + [Worth(rows[i])]
                 && (AllParse(tops) && Paise(rows[i]).Ok? ==> AllParse(tops + [rows[i]]))
  {
    assert rows[..i + 1] == rows[..i] + [rows[i]];
    InitLast(rows[..i], rows[i]);
    assert Tops(parents, rows[..i]) + [] == Tops(parents, rows[..i]);
  }

  method TopPaise(rows: seq<Row>) returns (r: Result<seq<int>, Failure>)
    ensures var tops := Tops(ParentsIn(rows), rows);
            && (r.Ok? <==> AllParse(tops))
            && (r.Ok? ==> r.value == Worths(tops))
  {
    var parents := ReadParents(rows);
    var paise: seq<int> := [];
    for i := 0 to |rows|
      invariant AllParse(Tops(parents, rows[..i])) && paise == Worths(Tops(parents, rows[..i]))
    {
      var row := rows[i];
      NextTop(parents, rows, i);
      var onCycle := IsOnParentCycle(row.group, parents);
      if !(row.parent != "" && row.parent in parents && !onCycle) {
        if Paise(row).Err? {
          TopsKeep(parents, rows, i);
          return Err(Paise(row).error);
        }
        paise := paise + [Paise(row).value];
      }
    }
    assert rows[..|rows|] == rows;
    r := Ok(paise);
  }

  lemma {:induction false} TopsKeep(parents: Parents, rows: seq<Row>, i: nat)
    requires i < |rows| && !Contained(parents, rows[i])
    ensures exists k | 0 <= k < |Tops(parents, rows)| :: Tops(parents, rows)[k] == rows[i]
    decreases |rows|
  {
    var before := Tops(parents, Init(rows));
    if i == |rows| - 1 {
      assert Tops(parents, rows)[|before|] == rows[i];
    } else {
      TopsKeep(parents, Init(rows), i);
      var k :| 0 <= k < |before| && before[k] == Init(rows)[i];
      assert Tops(parents, rows)[k] == rows[i];
    }
  }

  lemma {:induction false} TopsOfAllKeep(rows: seq<Row>, periods: seq<string>, n: nat)
    requires n <= |periods|
    ensures TopsOfAll(rows, periods[..n]) <= TopsOfAll(rows, periods)
    decreases |periods|
  {
    if n == |periods| {
      assert periods[..n] == periods;
    } else {
      TopsOfAllKeep(rows, Init(periods), n);
      assert Init(periods)[..n] == periods[..n];
    }
  }

  lemma {:induction false} NextPeriod(rows: seq<Row>, periods: seq<string>, i: nat)
    requires i < |periods|
    ensures var before, tops := TopsOfAll(rows, periods[..i]), TopsOf(rows, periods[i]);
            && TopsOfAll(rows, periods[..i + 1]) == before + tops
            && Worths(before + tops) == Worths(before) + Worths(tops)
            && (AllParse(before + tops) <==> AllParse(before) && AllParse(tops))
  {
    var before, tops := TopsOfAll(rows, periods[..i]), TopsOf(rows, periods[i]);
    assert periods[..i + 1] == periods[..i] + [periods[i]];
    InitLast(periods[..i], periods[i]);
    ReadConcat(before, tops);
  }

  lemma {:induction false} ReadConcat(a: seq<Row>, b: seq<Row>)
    ensures Worths(a + b) == Worths(a) + Worths(b)
    ensures AllParse(a + b) <==> AllParse(a) && AllParse(b)
  {
    assert forall j | 0 <= j < |a| :: (a + b)[j] == a[j];
    assert forall j | 0 <= j < |b| :: (a + b)[|a| + j] == b[j];
  }

  method GatherTops(rows: seq<Row>) returns (r: Result<seq<int>, Failure>)
    ensures r.Ok? <==> AllParse(TopRows(rows))
    ensures r.Ok? ==> r.value == Worths(TopRows(rows))
  {
    var order, byPeriod := GroupByPeriod(rows);
    var paise: seq<int> := [];
    for i := 0 to |order|
      invariant AllParse(TopsOfAll(rows, order[..i])) && paise == Worths(TopsOfAll(rows, order[..i]))
    {
      NextPeriod(rows, order, i);
      assert order[i] in order;
      var more := TopPaise(byPeriod[order[i]]);
      if more.Err? {
        TopsOfAllKeep(rows, order, i + 1);
        AppendedUnreadable(TopsOfAll(rows, order[..i]), TopsOf(rows, order[i]), TopRows(rows));
        return Err(more.error);
      }
      paise := paise + more.value;
    }
    assert order[..|order|] == order;
    r := Ok(paise);
  }

  /** The exact sum of the top-level rows, or an error exactly when an amount is unreadable or the sum unsafe. */
  method TopLevelRevenuePaise(rows: seq<Row>) returns (r: Result<int, Failure>)
    ensures r.Ok? <==> AllParse(TopRows(rows)) && SumsSafely(Worths(TopRows(rows)))
    ensures r.Ok? ==> r.value == Total(Worths(TopRows(rows)))
  {
    var paise := GatherTops(rows);
    if paise.Err? {
      return Err(paise.error);
    }
    r := SumPaise(paise.value);
  }

  lemma {:induction false} AppendedUnreadable(before: seq<Row>, rows: seq<Row>, all: seq<Row>)
    requires before + rows <= all && !AllParse(rows)
    ensures !AllParse(all)
  {
    var i :| 0 <= i < |rows| && Paise(rows[i]).Err?;
    assert all[|before| + i] == (before + rows)[|before| + i] == rows[i];
  }

  // ------------------------------------------------------------------ nothing is counted twice

  ghost function Sum(rows: seq<Row>, f: Row -> int): int {
    if rows == [] then 0 else Sum(Init(rows), f) + f(Last(rows))
  }

  /** The children of `group` among the rows that are rolled up into it. */
  ghost function ChildSum(parents: Parents, rows: seq<Row>, group: string, f: Row -> int): int {
    if rows == [] then 0
    else
      var c := Last(rows);
      ChildSum(parents, Init(rows), group, f)
      + if c.parent == group && group != "" && !OnCycle(parents, c.group) then f(c) else 0
  }

  ghost predicate DistinctGroups(rows: seq<Row>) {
    forall i, j | 0 <= i < j < |rows| :: rows[i].group != rows[j].group
  }

  /** Every row is what the group earned itself plus the rows rolled up into it. */
  ghost predicate RolledUp(rows: seq<Row>, f: Row -> int, own: Row -> int) {
    forall i | 0 <= i < |rows| :: f(rows[i]) == own(rows[i]) + ChildSum(ParentsIn(rows), rows, rows[i].group, f)
  }

  /** The rows rolled up into one of `groups`. */
  ghost function Inside(parents: Parents, rows: seq<Row>, groups: set<string>, f: Row -> int): int {
    if rows == [] then 0
    else
      var c := Last(rows);
      Inside(parents, Init(rows), groups, f)
      + if c.parent in groups && c.parent != "" && !OnCycle(parents, c.group) then f(c) else 0
  }

  lemma {:induction false} InsideOneMore(parents: Parents, rows: seq<Row>, groups: set<string>, group: string,
                                         f: Row -> int)
    requires group !in groups
    ensures Inside(parents, rows, groups + {group}, f) ==
            Inside(parents, rows, groups, f) + ChildSum(parents, rows, group, f)
  {
    if rows != [] {
      InsideOneMore(parents, Init(rows), groups, group, f);
    }
  }

  lemma {:induction false} InsideNothing(parents: Parents, rows: seq<Row>, f: Row -> int)
    ensures Inside(parents, rows, {}, f) == 0
  {
    if rows != [] {
      InsideNothing(parents, Init(rows), f);
    }
  }

  lemma {:induction false} ParentsInKeys(rows: seq<Row>)
    ensures forall g :: g in ParentsIn(rows) <==> exists i | 0 <= i < |rows| :: rows[i].group == g
  {
    if rows != [] {
      ParentsInKeys(Init(rows));
      forall g
        ensures g in ParentsIn(rows) <==> exists i | 0 <= i < |rows| :: rows[i].group == g
      {
        if g in ParentsIn(Init(rows)) {
          var i :| 0 <= i < |Init(rows)| && Init(rows)[i].group == g;
          assert rows[i].group == g;
        }
        assert rows[|rows| - 1] == Last(rows);
        if i :| 0 <= i < |rows| && rows[i].group == g {
          assert i < |rows| - 1 ==> Init(rows)[i].group == g;
        }
      }
    }
  }

  /** Over the first n rows: amounts are own amounts plus what is inside those rows. */
  lemma {:induction false} AmountsSplit(rows: seq<Row>, f: Row -> int, own: Row -> int, n: nat)
    requires n <= |rows| && DistinctGroups(rows) && RolledUp(rows, f, own)
    ensures Sum(rows[..n], f) == Sum(rows[..n], own) + Inside(ParentsIn(rows), rows, ParentsIn(rows[..n]).Keys, f)
  {
    var parents := ParentsIn(rows);
    if n == 0 {
      assert ParentsIn(rows[..0]).Keys == {};
      InsideNothing(parents, rows, f);
    } else {
      AmountsSplit(rows, f, own, n - 1);
      var before, r := rows[..n - 1], rows[n - 1];
      NextSum(rows, f, n - 1);
      NextSum(rows, own, n - 1);
      NewGroup(rows, n - 1);
      InsideOneMore(parents, rows, ParentsIn(before).Keys, r.group, f);
    }
  }

  lemma {:induction false} NextSum(rows: seq<Row>, f: Row -> int, i: nat)
    requires i < |rows|
    ensures Sum(rows[..i + 1], f) == Sum(rows[..i], f) + f(rows[i])
  {
    assert rows[..i + 1] == rows[..i] + [rows[i]];
    InitLast(rows[..i], rows[i]);
  }

  lemma {:induction false} NewGroup(rows: seq<Row>, i: nat)
    requires i < |rows| && DistinctGroups(rows)
    ensures rows[i].group !in ParentsIn(rows[..i]).Keys
    ensures ParentsIn(rows[..i + 1]).Keys == ParentsIn(rows[..i]).Keys + {rows[i].group}
  {
    ParentsInKeys(rows[..i]);
    assert rows[..i + 1] == rows[..i] + [rows[i]];
    InitLast(rows[..i], rows[i]);
  }

  lemma {:induction false} TopsAndInside(parents: Parents, rows: seq<Row>, f: Row -> int)
    ensures Sum(rows, f) == Sum(Tops(parents, rows), f) + Inside(parents, rows, parents.Keys, f)
  {
    if rows != [] {
      TopsAndInside(parents, Init(rows), f);
      InitLast(Tops(parents, Init(rows)), Last(rows));
      assert Tops(parents, Init(rows)) + [] == Tops(parents, Init(rows));
    }
  }

  /** In one period the top-level rows are worth what all the groups earned themselves, whatever `f` is measured. */
  lemma {:induction false} PeriodCountsOnce(rows: seq<Row>, f: Row -> int, own: Row -> int)
    requires DistinctGroups(rows) && RolledUp(rows, f, own)
    ensures Sum(Tops(ParentsIn(rows), rows), f) == Sum(rows, own)
  {
    AmountsSplit(rows, f, own, |rows|);
    assert rows[..|rows|] == rows;
    TopsAndInside(ParentsIn(rows), rows, f);
  }

  ghost predicate EveryPeriodRolledUp(rows: seq<Row>, f: Row -> int, own: Row -> int) {
    forall p: string :: DistinctGroups(OfPeriod(rows, p)) && RolledUp(OfPeriod(rows, p), f, own)
  }

  ghost function PeriodSums(rows: seq<Row>, periods: seq<string>, f: Row -> int): int {
    if periods == [] then 0 else PeriodSums(rows, Init(periods), f) + Sum(OfPeriod(rows, Last(periods)), f)
  }

  lemma {:induction false} SumAppend(a: seq<Row>, b: seq<Row>, f: Row -> int)
    ensures Sum(a + b, f) == Sum(a, f) + Sum(b, f)
  {
    if b == [] {
      assert a + b == a;
    } else {
      SumAppend(a, Init(b), f);
      assert a + b == a + Init(b) + [Last(b)];
      InitLast(a + Init(b), Last(b));
    }
  }

  lemma {:induction false} AllPeriodsCountOnce(rows: seq<Row>, periods: seq<string>, f: Row -> int, own: Row -> int)
    requires EveryPeriodRolledUp(rows, f, own)
    ensures Sum(TopsOfAll(rows, periods), f) == PeriodSums(rows, periods, own)
  {
    if periods != [] {
      AllPeriodsCountOnce(rows, Init(periods), f, own);
      SumAppend(TopsOfAll(rows, Init(periods)), TopsOf(rows, Last(periods)), f);
      PeriodCountsOnce(OfPeriod(rows, Last(periods)), f, own);
    }
  }

  ghost predicate Distinct(periods: seq<string>) {
    forall i, j | 0 <= i < j < |periods| :: periods[i] != periods[j]
  }

  lemma {:induction false} PeriodsAreDistinct(rows: seq<Row>)
    ensures Distinct(Periods(rows))
  {
    if rows != [] {
      PeriodsAreDistinct(Init(rows));
    }
  }

  lemma {:induction false} OneRowMore(rows: seq<Row>, r: Row, periods: seq<string>, f: Row -> int)
    requires Distinct(periods)
    ensures PeriodSums(rows + [r], periods, f) == PeriodSums(rows, periods, f) + if r.period in periods then f(r) else 0
  {
    if periods != [] {
      OneRowMore(rows, r, Init(periods), f);
      InitLast(rows, r);
      InitLast(OfPeriod(rows, Last(periods)), r);
      assert OfPeriod(rows, Last(periods)) + [] == OfPeriod(rows, Last(periods));
      assert periods == Init(periods) + [Last(periods)];
    }
  }

  lemma {:induction false} PeriodsPartition(rows: seq<Row>, f: Row -> int)
    ensures PeriodSums(rows, Periods(rows), f) == Sum(rows, f)
  {
    if rows != [] {
      var before, r := Init(rows), Last(rows);
      assert rows == before + [r];
      PeriodsPartition(before, f);
      PeriodsAreDistinct(before);
      OneRowMore(before, r, Periods(before), f);
      if r.period !in Periods(before) {
        InitLast(Periods(before), r.period);
        InitLast(before, r);
        NotYetSeen(before, r.period);
        assert OfPeriod(rows, r.period) == [r];
        assert Sum([r], f) == Sum([], f) + f(r);
      }
    }
  }

  lemma {:induction false} NotYetSeen(rows: seq<Row>, period: string)
    requires period !in Periods(rows)
    ensures OfPeriod(rows, period) == []
  {
    if rows != [] {
      NotYetSeen(Init(rows), period);
    }
  }

  lemma {:induction false} TotalIsSum(rows: seq<Row>)
    ensures Total(Worths(rows)) == Sum(rows, Worth)
  {
    if rows != [] {
      TotalIsSum(Init(rows));
      assert Worths(rows)[..|rows| - 1] == Worths(Init(rows));
    }
  }

  lemma {:induction false} TopsAreRows(parents: Parents, rows: seq<Row>)
    ensures forall r | r in Tops(parents, rows) :: r in rows
  {
    if rows != [] {
      TopsAreRows(parents, Init(rows));
      assert rows == Init(rows) + [Last(rows)];
    }
  }

  lemma {:induction false} OfPeriodAreRows(rows: seq<Row>, period: string)
    ensures forall r | r in OfPeriod(rows, period) :: r in rows
  {
    if rows != [] {
      OfPeriodAreRows(Init(rows), period);
      assert rows == Init(rows) + [Last(rows)];
    }
  }

  lemma {:induction false} TopsOfAllAreRows(rows: seq<Row>, periods: seq<string>)
    ensures forall r | r in TopsOfAll(rows, periods) :: r in rows
  {
    if periods != [] {
      TopsOfAllAreRows(rows, Init(periods));
      OfPeriodAreRows(rows, Last(periods));
      TopsAreRows(ParentsIn(OfPeriod(rows, Last(periods))), OfPeriod(rows, Last(periods)));
    }
  }

  lemma {:induction false} SumAgrees(rows: seq<Row>, f: Row -> int, g: Row -> int)
    requires forall r | r in rows :: f(r) == g(r)
    ensures Sum(rows, f) == Sum(rows, g)
  {
    if rows != [] {
      SumAgrees(Init(rows), f, g);
    }
  }

  lemma {:induction false} SaidIsRead(r: Row, paise: int)
    requires Says(r.amount, paise)
    ensures Paise(r) == Ok(paise) && Worth(r) == paise
  {
    ParsePrintRoundTrip(FromInt(paise));
  }

  /**
   * No double counting and nothing left out. The texts of the rows say `paise`, and in every period each of these is
   * what the group earned itself plus those of the rows rolled up into it: then all the summed rows can be read, and
   * they total what the groups earned themselves, whichever parents the pull is missing.
   */
  lemma {:induction false} RevenueCountsOnce(rows: seq<Row>, paise: Row -> int, own: Row -> int)
    requires forall r | r in rows :: Says(r.amount, paise(r))
    requires EveryPeriodRolledUp(rows, paise, own)
    ensures AllParse(TopRows(rows)) && Total(Worths(TopRows(rows))) == Sum(rows, own)
  {
    TopsOfAllAreRows(rows, Periods(rows));
    forall r | r in TopRows(rows)
      ensures Paise(r) == Ok(paise(r)) && Worth(r) == paise(r)
    {
      SaidIsRead(r, paise(r));
    }
    SumAgrees(TopRows(rows), Worth, paise);
    TotalIsSum(TopRows(rows));
    AllPeriodsCountOnce(rows, Periods(rows), paise, own);
    PeriodsPartition(rows, own);
  }
}
