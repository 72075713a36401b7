/** What the rows of a report add up to, and what their shares add up to. */
module ReportTotals {
  import opened Analytics
  import opened Report

  function RowCount(row: HistoryRow, f: Field): int { Count(FromRow(row), f) }

  function HistoryTotal(rows: seq<HistoryRow>, f: Field): int {
    if rows == [] then 0 else HistoryTotal(rows[..|rows| - 1], f) + RowCount(rows[|rows| - 1], f)
  }

  function LiveCounts(live: map<string, Act>, f: Field): map<string, int> { map u | u in live :: Get(live[u], f) }

  function ReportTotal(stats: seq<UserStat>, f: Field): int {
    if stats == [] then 0 else ReportTotal(stats[..|stats| - 1], f) + Count(stats[|stats| - 1], f)
  }

  function ShareTotal(stats: seq<UserStat>): real {
    if stats == [] then 0.0 else ShareTotal(stats[..|stats| - 1]) + stats[|stats| - 1].percentage
  }

  /** The history query groups by user, so no user has two rows. */
  predicate DistinctUsers(rows: seq<HistoryRow>) {
    forall i, j | 0 <= i < j < |rows| :: rows[i].user != rows[j].user
  }

  lemma {:induction false} ByUserKeys(rows: seq<HistoryRow>, u: string)
    ensures u in ByUser(rows) <==> exists i :: 0 <= i < |rows| && rows[i].user == u
  {
    if rows != [] { ByUserKeys(rows[..|rows| - 1], u); }
  }

  lemma {:induction false} HistorySum(rows: seq<HistoryRow>, f: Field)
    requires DistinctUsers(rows)
    ensures Sum(Counts(ByUser(rows), f)) == HistoryTotal(rows, f)
  {
    if rows == [] {
      assert Counts(ByUser(rows), f) == map[];
    } else {
      var before, last := rows[..|rows| - 1], rows[|rows| - 1];
      HistorySum(before, f);
      ByUserKeys(before, last.user);
      var m, k := Counts(ByUser(rows), f), Counts(ByUser(before), f);
      assert m == k[last.user := RowCount(last, f)];
      SumStep(m, k, last.user);
    }
  }

  lemma SumReplace(m: map<string, int>, u: string, x: int)
    ensures Sum(m[u := x]) == Sum(m) + x - if u in m then m[u] else 0
  {
    SumWithout(m[u := x], u);
    assert m[u := x] - {u} == m - {u};
    if u in m { SumWithout(m, u); } else { assert m - {u} == m; }
  }

  function AmountOf(m: map<string, int>, u: string): int { if u in m then m[u] else 0 }

  function AddMaps(a: map<string, int>, b: map<string, int>): map<string, int> {
    map u | u in a.Keys + b.Keys :: AmountOf(a, u) + AmountOf(b, u)
  }

  lemma AddMapsStep(a: map<string, int>, b: map<string, int>, u: string)
    requires u in b
    ensures AddMaps(a, b) == AddMaps(a, b - {u})[u := AmountOf(a, u) + b[u]]
    ensures AmountOf(AddMaps(a, b - {u}), u) == AmountOf(a, u)
  {
  }

  lemma {:induction false} AddMapsSumStep(a: map<string, int>, b: map<string, int>, u: string)
    requires u in b && Sum(AddMaps(a, b - {u})) == Sum(a) + Sum(b - {u})
    ensures Sum(AddMaps(a, b)) == Sum(a) + Sum(b)
  {
    AddMapsStep(a, b, u);
    SumReplace(AddMaps(a, b - {u}), u, AmountOf(a, u) + b[u]);
    SumWithout(b, u);
  }

  lemma {:induction false} AddMapsSum(a: map<string, int>, b: map<string, int>)
    ensures Sum(AddMaps(a, b)) == Sum(a) + Sum(b)
    decreases |b|
  {
    if b == map[] {
      assert AddMaps(a, b) == a;
    } else {
      var u :| u in b;
      AddMapsSum(a, b - {u});
      AddMapsSumStep(a, b, u);
    }
  }

  lemma MergedCounts(stats: StatsMap, live: map<string, Act>, f: Field)
    ensures Counts(Merged(stats, live), f) == AddMaps(Counts(stats, f), LiveCounts(live, f))
  {
  }

  /** All rows but the last are the rows of all users but the last one's. */
  lemma RowsWithoutLast(stats: seq<UserStat>, m: StatsMap, total: int)
    requires RowsOf(stats, m, total) && stats != []
    ensures RowsOf(stats[..|stats| - 1], m - {stats[|stats| - 1].user}, total)
  {
  }

  lemma NoRows(m: StatsMap, total: int)
    requires RowsOf([], m, total)
    ensures m == map[]
  {
  }

  lemma CountsWithout(m: StatsMap, u: string, f: Field)
    requires u in m
    ensures Sum(Counts(m, f)) == Count(m[u], f) + Sum(Counts(m - {u}, f))
  {
    SumWithout(Counts(m, f), u);
    assert Counts(m - {u}, f) == Counts(m, f) - {u};
  }

  lemma {:induction false} RowsSum(stats: seq<UserStat>, m: StatsMap, total: int, f: Field)
    requires RowsOf(stats, m, total)
    ensures ReportTotal(stats, f) == Sum(Counts(m, f))
  {
    if stats == [] {
      NoRows(m, total);
      assert Counts(m, f) == map[];
    } else {
      var last := stats[|stats| - 1];
      RowsWithoutLast(stats, m, total);
      RowsSum(stats[..|stats| - 1], m - {last.user}, total, f);
      CountsWithout(m, last.user, f);
    }
  }

  /** The report's edits, bytes and seconds each add up to the history's plus the live counters'. */
  lemma {:induction false} ReportAddsUp(historical: seq<HistoryRow>, live: map<string, Act>, stats: seq<UserStat>,
                                        f: Field)
    requires DistinctUsers(historical)
    requires RowsOf(stats, Merged(ByUser(historical), live), Sum(Counts(Merged(ByUser(historical), live), BytesAdded)))
    ensures ReportTotal(stats, f) == HistoryTotal(historical, f) + Sum(LiveCounts(live, f))
  {
    var merged := Merged(ByUser(historical), live);
    RowsSum(stats, merged, Sum(Counts(merged, BytesAdded)), f);
    MergedCounts(ByUser(historical), live, f);
    AddMapsSum(Counts(ByUser(historical), f), LiveCounts(live, f));
    HistorySum(historical, f);
  }

  lemma {:induction false} SharesOf(stats: seq<UserStat>, total: int)
    requires forall i | 0 <= i < |stats| :: stats[i].percentage == Share(stats[i].bytes, total)
    ensures total <= 0 ==> ShareTotal(stats) == 0.0
    ensures total > 0 ==> ShareTotal(stats) == ReportTotal(stats, BytesAdded) as real / total as real * 100.0
  {
    if stats != [] {
      var n := |stats| - 1;
      SharesOf(stats[..n], total);
      if total > 0 { Distribute(ReportTotal(stats[..n], BytesAdded) as real, stats[n].bytes as real, total as real); }
    }
  }

  lemma Distribute(a: real, b: real, t: real)
    requires t > 0.0
    ensures a / t * 100.0 + b / t * 100.0 == (a + b) / t * 100.0
  {
  }

  lemma {:induction false} PartsOfTotal(stats: seq<UserStat>, i: nat)
    requires i < |stats| && forall j | 0 <= j < |stats| :: stats[j].bytes >= 0
    ensures stats[i].bytes <= ReportTotal(stats, BytesAdded)
  {
    var n := |stats| - 1;
    if i < n { PartsOfTotal(stats[..n], i); } else if n > 0 { PartsOfTotal(stats[..n], 0); }
  }

  lemma Fraction(b: real, t: real)
    requires 0.0 <= b <= t && t > 0.0
    ensures 0.0 <= b / t * 100.0 <= 100.0
  {
  }

  lemma {:induction false} ShareBounds(stats: seq<UserStat>, i: nat, total: int)
    requires i < |stats| && forall j | 0 <= j < |stats| :: stats[j].bytes >= 0
    requires ReportTotal(stats, BytesAdded) == total
    ensures 0.0 <= Share(stats[i].bytes, total) <= 100.0
  {
    PartsOfTotal(stats, i);
    if total > 0 { Fraction(stats[i].bytes as real, total as real); }
  }

  lemma WholeShare(t: real)
    requires t > 0.0
    ensures t / t * 100.0 == 100.0
  {
  }

  /** Shares add up to exactly 100, or are all 0 if there are no bytes; each lies between 0 and 100. */
  lemma {:induction false} SharesAddUp(stats: seq<UserStat>, merged: StatsMap, total: int)
    requires RowsOf(stats, merged, total) && total == Sum(Counts(merged, BytesAdded))
    requires forall u | u in merged :: merged[u].bytes >= 0
    ensures ShareTotal(stats) == if total > 0 then 100.0 else 0.0
    ensures forall i | 0 <= i < |stats| :: 0.0 <= stats[i].percentage <= 100.0
    ensures total <= 0 ==> forall i | 0 <= i < |stats| :: stats[i].percentage == 0.0
  {
    RowsSum(stats, merged, total, BytesAdded);
    SharesOf(stats, total);
    forall i | 0 <= i < |stats| ensures 0.0 <= stats[i].percentage <= 100.0 { ShareBounds(stats, i, total); }
    if total > 0 { WholeShare(total as real); }
  }

  /** Row i is the last of its user's. */
  predicate LastOfUser(rows: seq<HistoryRow>, i: nat) {
    i < |rows| && forall j | i < j < |rows| :: rows[j].user != rows[i].user
  }

  lemma {:induction false} ByUserValue(rows: seq<HistoryRow>, i: nat)
    requires LastOfUser(rows, i)
    ensures rows[i].user in ByUser(rows) && ByUser(rows)[rows[i].user] == FromRow(rows[i])
  {
    if i < |rows| - 1 { ByUserValue(rows[..|rows| - 1], i); }
  }

  function LiveAct(live: map<string, Act>, u: string): Act { if u in live then live[u] else Act(0, 0, 0) }

  /** Row by row: a user with history is shown under the name of the user's last history row, with its counters plus the
      live ones; a user with live counters only, without a name and with those. */
  lemma {:induction false} RowsAreSums(historical: seq<HistoryRow>, live: map<string, Act>, stats: seq<UserStat>,
                                       total: int, i: nat)
    requires RowsOf(stats, Merged(ByUser(historical), live), total) && i < |stats|
    ensures var s := stats[i]; var a := LiveAct(live, s.user);
            && (forall h: nat | LastOfUser(historical, h) && historical[h].user == s.user ::
                  && s.name == historical[h].name && s.edits == historical[h].edits + a.edits
                  && s.bytes == historical[h].bytes + a.bytes && s.secs == historical[h].secs + a.secs)
            && ((forall h | 0 <= h < |historical| :: historical[h].user != s.user) ==>
                  s.user in live && s.name == "" && s.edits == a.edits && s.bytes == a.bytes && s.secs == a.secs)
            && s.percentage == if total > 0 then s.bytes as real / total as real * 100.0 else 0.0
  {
    var u := stats[i].user;
    ByUserKeys(historical, u);
    forall h: nat | LastOfUser(historical, h) && historical[h].user == u
      ensures u in ByUser(historical) && ByUser(historical)[u] == FromRow(historical[h])
    {
      ByUserValue(historical, h);
    }
  }
}
