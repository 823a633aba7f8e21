/**
 * The token-usage table: `record_tokens` appends one row, and
 * `get_aggregated_stats` runs the fixed query
 *
 *   SELECT date, SUM(prompt_tokens), SUM(completion_tokens)
 *   FROM token_stats GROUP BY date ORDER BY date ASC
 *
 * The table is a sequence of rows in insertion order; the query is a pure
 * function of it, so reading the statistics cannot change the table.
 */
module TokenStats {
  import opened TextOrder

  /** One row of `token_stats` (the `id` primary key is not observable). */
  datatype Row = Row(date: string, promptTokens: int, completionTokens: int, modelName: string)

  /** One line of the aggregate: a date and the two summed counters. */
  datatype TokenStat = TokenStat(date: string, promptTokens: int, completionTokens: int)

  type Table = seq<Row>

  /** `record_tokens`: insert one row. */
  function Record(t: Table, date: string, prompt: int, completion: int, model: string): (t': Table)
    ensures |t'| == |t| + 1
    ensures t'[..|t|] == t
    ensures t'[|t|] == Row(date, prompt, completion, model)
  {
    t + [Row(date, prompt, completion, model)]
  }

  // ---------------------------------------------------------------------------
  // What the query means, stated independently of how it is evaluated
  // ---------------------------------------------------------------------------

  /** The distinct dates present in the table. */
  function Dates(t: Table): set<string>
  {
    if |t| == 0 then {} else Dates(t[..|t| - 1]) + {t[|t| - 1].date}
  }

  /** `SUM(prompt_tokens)` and `SUM(completion_tokens)` over the rows whose
      date is `d`, whatever their model name. */
  function Totals(t: Table, d: string): TokenStat
  {
    if |t| == 0 then TokenStat(d, 0, 0)
    else
      var s := Totals(t[..|t| - 1], d);
      var row := t[|t| - 1];
      if row.date == d then TokenStat(d, s.promptTokens + row.promptTokens, s.completionTokens + row.completionTokens)
      else s
  }

  /** The dates of an aggregate, in a set. */
  function Keys(r: seq<TokenStat>): set<string>
  {
    if |r| == 0 then {} else {r[0].date} + Keys(r[1..])
  }

  /** `ORDER BY date ASC` on distinct groups: strictly ascending text order. */
  predicate Ascending(r: seq<TokenStat>)
  {
    forall i, j :: 0 <= i < j < |r| ==> Less(r[i].date, r[j].date)
  }

  /** Every entry carries the sums of its date. */
  predicate Summed(r: seq<TokenStat>, t: Table)
  {
    forall i :: 0 <= i < |r| ==> r[i] == Totals(t, r[i].date)
  }

  /** `r` is a correct answer to the query on table `t`. */
  predicate IsAggregateOf(r: seq<TokenStat>, t: Table)
  {
    Ascending(r) && Keys(r) == Dates(t) && Summed(r, t)
  }

  // ---------------------------------------------------------------------------
  // Evaluation: fold the rows into a sorted list of groups
  // ---------------------------------------------------------------------------

  /** Add one row to a sorted list of groups: bump its date's group, or
      insert a new group at its place in the order. */
  function AddRow(acc: seq<TokenStat>, row: Row): seq<TokenStat>
  {
    if |acc| == 0 then [TokenStat(row.date, row.promptTokens, row.completionTokens)]
    else if acc[0].date == row.date then
      [TokenStat(row.date, acc[0].promptTokens + row.promptTokens, acc[0].completionTokens + row.completionTokens)] + acc[1..]
    else if Less(row.date, acc[0].date) then
      [TokenStat(row.date, row.promptTokens, row.completionTokens)] + acc
    else
      [acc[0]] + AddRow(acc[1..], row)
  }

  /** `get_aggregated_stats`. */
  function Aggregate(t: Table): (r: seq<TokenStat>)
    ensures IsAggregateOf(r, t)
  {
    if |t| == 0 then []
    else
      var prev := t[..|t| - 1];
      var acc := Aggregate(prev);
      assert prev + [t[|t| - 1]] == t;
      AddRowKeepsAggregate(acc, prev, t[|t| - 1]);
      AddRow(acc, t[|t| - 1])
  }

  // ---------------------------------------------------------------------------
  // Proof of the evaluation
  // ---------------------------------------------------------------------------

  /** `d` sorts before every date of `r`. */
  predicate Below(d: string, r: seq<TokenStat>)
  {
    forall i :: 0 <= i < |r| ==> Less(d, r[i].date)
  }

  lemma {:induction false} AddRowBelow(acc: seq<TokenStat>, row: Row, d: string)
    requires Below(d, acc) && Less(d, row.date)
    ensures Below(d, AddRow(acc, row))
  {
    if |acc| > 0 && acc[0].date != row.date && !Less(row.date, acc[0].date) {
      AddRowBelow(acc[1..], row, d);
    }
  }

  lemma {:induction false} AddRowAscending(acc: seq<TokenStat>, row: Row)
    requires Ascending(acc)
    ensures Ascending(AddRow(acc, row))
  {
    if |acc| == 0 {
    } else if acc[0].date == row.date {
    } else if Less(row.date, acc[0].date) {
      var r := AddRow(acc, row);
      forall i, j | 0 <= i < j < |r|
        ensures Less(r[i].date, r[j].date)
      {
        if i == 0 && j > 1 {
          Transitive(row.date, acc[0].date, acc[j - 1].date);
        }
      }
    } else {
      Total(row.date, acc[0].date);
      AddRowAscending(acc[1..], row);
      AddRowBelow(acc[1..], row, acc[0].date);
    }
  }

  lemma {:induction false} AddRowKeys(acc: seq<TokenStat>, row: Row)
    ensures Keys(AddRow(acc, row)) == Keys(acc) + {row.date}
  {
    if |acc| == 0 {
    } else if acc[0].date == row.date {
      assert AddRow(acc, row)[1..] == acc[1..];
    } else if Less(row.date, acc[0].date) {
      assert AddRow(acc, row)[1..] == acc;
    } else {
      AddRowKeys(acc[1..], row);
      assert AddRow(acc, row)[1..] == AddRow(acc[1..], row);
    }
  }

  lemma {:induction false} AbsentDateSumsZero(t: Table, d: string)
    requires d !in Dates(t)
    ensures Totals(t, d) == TokenStat(d, 0, 0)
  {
    if |t| > 0 {
      AbsentDateSumsZero(t[..|t| - 1], d);
    }
  }

  lemma TotalsAppend(t: Table, row: Row, d: string)
    ensures Totals(t + [row], d)
         == if row.date == d then TokenStat(d, Totals(t, d).promptTokens + row.promptTokens,
                                            Totals(t, d).completionTokens + row.completionTokens)
            else Totals(t, d)
  {
  }

  lemma {:induction false} KeysHaveIndex(r: seq<TokenStat>, d: string)
    requires d in Keys(r)
    ensures exists i :: 0 <= i < |r| && r[i].date == d
  {
    if r[0].date != d {
      KeysHaveIndex(r[1..], d);
      var i :| 0 <= i < |r[1..]| && r[1..][i].date == d;
      assert r[i + 1].date == d;
    }
  }

  /** A date sorting before the head of an ascending list is not in it. */
  lemma BelowHeadAbsent(r: seq<TokenStat>, d: string)
    requires Ascending(r) && |r| > 0 && Less(d, r[0].date)
    ensures d !in Keys(r)
  {
    if d in Keys(r) {
      KeysHaveIndex(r, d);
      var i :| 0 <= i < |r| && r[i].date == d;
      if i > 0 {
        Transitive(d, r[0].date, r[i].date);
      }
      Irreflexive(d);
    }
  }

  lemma {:induction false} AddRowSummed(acc: seq<TokenStat>, t: Table, row: Row)
    requires Ascending(acc) && Summed(acc, t)
    requires row.date !in Keys(acc) ==> Totals(t, row.date) == TokenStat(row.date, 0, 0)
    ensures Summed(AddRow(acc, row), t + [row])
  {
    var r := AddRow(acc, row);
    TotalsAppend(t, row, row.date);
    if |acc| == 0 {
    } else if acc[0].date == row.date {
      forall i | 0 < i < |r|
        ensures r[i] == Totals(t + [row], r[i].date)
      {
        TotalsAppend(t, row, r[i].date);
        assert Less(acc[0].date, acc[i].date);
        Irreflexive(acc[0].date);
      }
    } else if Less(row.date, acc[0].date) {
      BelowHeadAbsent(acc, row.date);
      forall i | 0 < i < |r|
        ensures r[i] == Totals(t + [row], r[i].date)
      {
        TotalsAppend(t, row, r[i].date);
        assert r[i] == acc[i - 1];
        if i > 1 {
          Transitive(row.date, acc[0].date, acc[i - 1].date);
        }
        Irreflexive(row.date);
      }
    } else {
      assert Ascending(acc[1..]);
      AddRowSummed(acc[1..], t, row);
      TotalsAppend(t, row, acc[0].date);
    }
  }

  lemma {:induction false} AddRowKeepsAggregate(acc: seq<TokenStat>, t: Table, row: Row)
    requires IsAggregateOf(acc, t)
    ensures IsAggregateOf(AddRow(acc, row), t + [row])
  {
    AddRowAscending(acc, row);
    AddRowKeys(acc, row);
    assert (t + [row])[..|t|] == t;
    if row.date !in Keys(acc) {
      AbsentDateSumsZero(t, row.date);
    }
    AddRowSummed(acc, t, row);
  }

  // ---------------------------------------------------------------------------
  // Properties of the query
  // ---------------------------------------------------------------------------

  lemma {:induction false} DatesHaveRow(t: Table, d: string)
    ensures d in Dates(t) <==> exists k :: 0 <= k < |t| && t[k].date == d
  {
    if |t| > 0 {
      var prev := t[..|t| - 1];
      DatesHaveRow(prev, d);
      if exists k :: 0 <= k < |t| && t[k].date == d {
        var k :| 0 <= k < |t| && t[k].date == d;
        if k < |t| - 1 {
          assert prev[k].date == d;
        }
      }
      if exists k :: 0 <= k < |prev| && prev[k].date == d {
        var k :| 0 <= k < |prev| && prev[k].date == d;
        assert t[k].date == d;
      }
    }
  }

  lemma KeysEmptyIff(r: seq<TokenStat>)
    ensures Keys(r) == {} <==> |r| == 0
  {
  }

  /** The head of an ascending list sorts before every other date in it. */
  lemma HeadIsLeast(r: seq<TokenStat>)
    requires Ascending(r) && |r| > 0
    ensures forall d :: d in Keys(r[1..]) ==> Less(r[0].date, d)
    ensures r[0].date !in Keys(r[1..])
  {
    forall d | d in Keys(r[1..])
      ensures Less(r[0].date, d)
    {
      KeysHaveIndex(r[1..], d);
      var i :| 0 <= i < |r[1..]| && r[1..][i].date == d;
      assert r[i + 1].date == d;
    }
    Irreflexive(r[0].date);
  }

  /** Two ascending lists with the same dates start with the same date. */
  lemma LeastKeyUnique(a: seq<TokenStat>, b: seq<TokenStat>)
    requires Ascending(a) && Ascending(b) && |a| > 0 && |b| > 0 && Keys(a) == Keys(b)
    ensures a[0].date == b[0].date
  {
    HeadIsLeast(a);
    HeadIsLeast(b);
    assert a[0].date in Keys(b);
    assert b[0].date in Keys(a);
    if Less(a[0].date, b[0].date) {
      Asymmetric(a[0].date, b[0].date);
    }
  }

  /** The query's three properties fix its answer: any two ascending lists of
      groups over the same dates, each entry carrying its date's sums, are
      equal. */
  lemma {:induction false} SortedGroupsUnique(a: seq<TokenStat>, b: seq<TokenStat>, t: Table)
    requires Ascending(a) && Ascending(b) && Keys(a) == Keys(b)
    requires Summed(a, t) && Summed(b, t)
    ensures a == b
  {
    KeysEmptyIff(a);
    KeysEmptyIff(b);
    if |a| > 0 {
      LeastKeyUnique(a, b);
      HeadIsLeast(a);
      HeadIsLeast(b);
      assert Keys(a[1..]) == Keys(a) - {a[0].date};
      assert Keys(b[1..]) == Keys(b) - {b[0].date};
      SortedGroupsUnique(a[1..], b[1..], t);
      assert a == [a[0]] + a[1..] && b == [b[0]] + b[1..];
    }
  }

  lemma AggregateUnique(r: seq<TokenStat>, t: Table)
    requires IsAggregateOf(r, t)
    ensures r == Aggregate(t)
  {
    SortedGroupsUnique(r, Aggregate(t), t);
  }

  /** Exactly one entry per distinct date of the table, and none for a date
      no row carries. */
  lemma AggregateOnePerDate(t: Table, d: string)
    ensures (exists i :: 0 <= i < |Aggregate(t)| && Aggregate(t)[i].date == d)
        <==> (exists k :: 0 <= k < |t| && t[k].date == d)
    ensures forall i, j :: 0 <= i < j < |Aggregate(t)| ==> Aggregate(t)[i].date != Aggregate(t)[j].date
  {
    var r := Aggregate(t);
    DatesHaveRow(t, d);
    if d in Keys(r) {
      KeysHaveIndex(r, d);
    }
    forall i | 0 <= i < |r| && r[i].date == d
      ensures d in Keys(r)
    {
      KeyOfIndex(r, i);
    }
    forall i, j | 0 <= i < j < |r|
      ensures r[i].date != r[j].date
    {
      Irreflexive(r[i].date);
    }
  }

  lemma {:induction false} KeyOfIndex(r: seq<TokenStat>, i: nat)
    requires i < |r|
    ensures r[i].date in Keys(r)
  {
    if i > 0 {
      KeyOfIndex(r[1..], i - 1);
    }
  }

  /** An empty table aggregates to an empty list, and only an empty one does. */
  lemma AggregateEmptyIff(t: Table)
    ensures Aggregate(t) == [] <==> |t| == 0
  {
  }

  /** Recording `(d, 10, 5)` twice into an empty table gives one group with
      doubled counters, whatever the two model names. */
  lemma RecordTwiceExample(d: string, m1: string, m2: string)
    ensures Aggregate(Record(Record([], d, 10, 5, m1), d, 10, 5, m2)) == [TokenStat(d, 20, 10)]
  {
  }

  /** After `record_tokens`, the group of the recorded date gains the
      recorded counters, a new group appears only if the date was absent, and
      every other group is unchanged. */
  lemma RecordThenAggregate(t: Table, d: string, p: int, c: int, m: string)
    ensures Keys(Aggregate(Record(t, d, p, c, m))) == Keys(Aggregate(t)) + {d}
    ensures forall i :: 0 <= i < |Aggregate(Record(t, d, p, c, m))| ==>
              var e := Aggregate(Record(t, d, p, c, m))[i];
              if e.date == d then e == TokenStat(d, Totals(t, d).promptTokens + p, Totals(t, d).completionTokens + c)
              else e in Aggregate(t)
  {
    var t' := Record(t, d, p, c, m);
    var r := Aggregate(t);
    var r' := Aggregate(t');
    assert t'[..|t|] == t;
    forall i | 0 <= i < |r'|
      ensures var e := r'[i];
              if e.date == d then e == TokenStat(d, Totals(t, d).promptTokens + p, Totals(t, d).completionTokens + c)
              else e in r
    {
      var e := r'[i];
      TotalsAppend(t, Row(d, p, c, m), e.date);
      if e.date != d {
        KeyOfIndex(r', i);
        KeysHaveIndex(r, e.date);
      }
    }
  }

  lemma {:induction false} TotalsConcat(a: Table, b: Table, d: string)
    ensures Totals(a + b, d).promptTokens == Totals(a, d).promptTokens + Totals(b, d).promptTokens
    ensures Totals(a + b, d).completionTokens == Totals(a, d).completionTokens + Totals(b, d).completionTokens
    ensures Totals(a + b, d).date == d
    decreases |b|
  {
    if |b| == 0 {
      assert a + b == a;
      TotalsDate(a, d);
    } else {
      var b0 := b[..|b| - 1];
      TotalsConcat(a, b0, d);
      assert a + b == (a + b0) + [b[|b| - 1]];
      TotalsAppend(a + b0, b[|b| - 1], d);
      TotalsAppend(b0, b[|b| - 1], d);
      assert b0 + [b[|b| - 1]] == b;
    }
  }

  lemma {:induction false} TotalsDate(t: Table, d: string)
    ensures Totals(t, d).date == d
  {
    if |t| > 0 {
      TotalsDate(t[..|t| - 1], d);
    }
  }

  lemma MultisetRemoveLast(t1: Table, t2: Table, k: nat)
    requires multiset(t1) == multiset(t2) && |t1| > 0
    requires k < |t2| && t2[k] == t1[|t1| - 1]
    ensures multiset(t1[..|t1| - 1]) == multiset(t2[..k] + t2[k + 1..])
  {
    var last := t1[|t1| - 1];
    assert t1 == t1[..|t1| - 1] + [last];
    assert t2 == t2[..k] + [last] + t2[k + 1..];
    assert multiset(t2) == multiset(t2[..k]) + multiset{last} + multiset(t2[k + 1..]);
    assert multiset(t2[..k] + t2[k + 1..]) == multiset(t2[..k]) + multiset(t2[k + 1..]);
    assert multiset(t1[..|t1| - 1]) == multiset(t1) - multiset{last};
    assert multiset(t2[..k] + t2[k + 1..]) == multiset(t2) - multiset{last};
  }

  /** Moving one row to the end of the table does not change any sum. */
  lemma TotalsSplice(front: Table, x: Row, back: Table, d: string)
    ensures Totals(front + [x] + back, d) == Totals(front + back + [x], d)
  {
    TotalsConcat(front + [x], back, d);
    TotalsConcat(front, [x], d);
    TotalsConcat(front + back, [x], d);
    TotalsConcat(front, back, d);
    TotalsDate(front + [x] + back, d);
    TotalsDate(front + back + [x], d);
  }

  lemma {:induction false} TotalsPermutation(t1: Table, t2: Table, d: string)
    requires multiset(t1) == multiset(t2)
    ensures Totals(t1, d) == Totals(t2, d)
    decreases |t1|
  {
    if |t1| == 0 {
      assert |t2| == |multiset(t2)| == 0;
    } else {
      var last := t1[|t1| - 1];
      assert last in multiset(t2);
      var k :| 0 <= k < |t2| && t2[k] == last;
      var front, back := t2[..k], t2[k + 1..];
      MultisetRemoveLast(t1, t2, k);
      TotalsPermutation(t1[..|t1| - 1], front + back, d);
      assert t1 == t1[..|t1| - 1] + [last];
      assert t2 == front + [last] + back;
      TotalsSplice(front, last, back, d);
      TotalsAppend(t1[..|t1| - 1], last, d);
      TotalsAppend(front + back, last, d);
    }
  }

  /** The answer depends only on the per-date sums and on which dates occur. */
  lemma AggregateBySums(t1: Table, t2: Table)
    requires Dates(t1) == Dates(t2)
    requires forall d :: Totals(t1, d) == Totals(t2, d)
    ensures Aggregate(t1) == Aggregate(t2)
  {
    SortedGroupsUnique(Aggregate(t1), Aggregate(t2), t1);
  }

  /** `GROUP BY` does not see insertion order: reordering the rows leaves
      the answer unchanged. */
  lemma AggregateOrderIndependent(t1: Table, t2: Table)
    requires multiset(t1) == multiset(t2)
    ensures Aggregate(t1) == Aggregate(t2)
  {
    forall d
      ensures Totals(t1, d) == Totals(t2, d)
    {
      TotalsPermutation(t1, t2, d);
    }
    forall d
      ensures d in Dates(t1) <==> d in Dates(t2)
    {
      DatesHaveRow(t1, d);
      DatesHaveRow(t2, d);
      if exists k :: 0 <= k < |t1| && t1[k].date == d {
        var k :| 0 <= k < |t1| && t1[k].date == d;
        assert t1[k] in multiset(t2);
      }
      if exists k :: 0 <= k < |t2| && t2[k].date == d {
        var k :| 0 <= k < |t2| && t2[k].date == d;
        assert t2[k] in multiset(t1);
      }
    }
    AggregateBySums(t1, t2);
  }

  lemma {:induction false} AddRowIgnoresModel(acc: seq<TokenStat>, r1: Row, r2: Row)
    requires r1.date == r2.date && r1.promptTokens == r2.promptTokens
    requires r1.completionTokens == r2.completionTokens
    ensures AddRow(acc, r1) == AddRow(acc, r2)
  {
    if |acc| > 0 {
      AddRowIgnoresModel(acc[1..], r1, r2);
    }
  }

  /** Sums are taken over every row of a date whatever its `model_name`:
      tables that differ only in model names aggregate identically. */
  lemma {:induction false} AggregateIgnoresModel(t1: Table, t2: Table)
    requires |t1| == |t2|
    requires forall k :: 0 <= k < |t1| ==> t1[k].(modelName := "") == t2[k].(modelName := "")
    ensures Aggregate(t1) == Aggregate(t2)
  {
    if |t1| > 0 {
      var n := |t1| - 1;
      AggregateIgnoresModel(t1[..n], t2[..n]);
      assert t1[n].(modelName := "") == t2[n].(modelName := "");
      AddRowIgnoresModel(Aggregate(t1[..n]), t1[n], t2[n]);
    }
  }
}
