/** MergeWithLive: history and live counters merged per user, shares computed, and the rows sorted in place. */
module Report {
  import opened Basics
  import opened Analytics

  /** A row of the history query. */
  datatype HistoryRow = HistoryRow(user: string, name: string, edits: int, bytes: int, secs: int)

  datatype UserStat = UserStat(user: string, name: string, edits: int, bytes: int, secs: int, percentage: real)

  type StatsMap = map<string, UserStat>

  function FromRow(row: HistoryRow): UserStat { UserStat(row.user, row.name, row.edits, row.bytes, row.secs, 0.0) }

  /** The history by user; a later row of the same user replaces an earlier one. */
  function ByUser(rows: seq<HistoryRow>): StatsMap {
    if rows == [] then map[]
    else ByUser(rows[..|rows| - 1])[rows[|rows| - 1].user := FromRow(rows[|rows| - 1])]
  }

  function WithLive(stats: StatsMap, u: string, a: Act): UserStat {
    if u in stats then
      stats[u].(edits := stats[u].edits + a.edits, bytes := stats[u].bytes + a.bytes, secs := stats[u].secs + a.secs)
    else UserStat(u, "", a.edits, a.bytes, a.secs, 0.0)
  }

  /** The merge, over the users of either source. */
  function Merged(stats: StatsMap, live: map<string, Act>): StatsMap {
    map u | u in stats.Keys + live.Keys :: if u in live then WithLive(stats, u, live[u]) else stats[u]
  }

  function Count(s: UserStat, f: Field): int {
    match f
    case Edits => s.edits
    case BytesAdded => s.bytes
    case ActiveSecs => s.secs
  }

  /** The total over all users. */
  ghost function Sum(m: map<string, int>): int {
    if m == map[] then 0 else var u :| u in m; m[u] + Sum(m - {u})
  }

  lemma {:induction false} SumWithout(m: map<string, int>, u: string)
    requires u in m
    ensures Sum(m) == m[u] + Sum(m - {u})
    decreases |m|
  {
    var v :| v in m && Sum(m) == m[v] + Sum(m - {v});
    if v != u {
      SumWithout(m - {v}, u);
      SumWithout(m - {u}, v);
      assert m - {v} - {u} == m - {u} - {v};
    }
  }

  function Counts(stats: StatsMap, f: Field): map<string, int> { map u | u in stats :: Count(stats[u], f) }

  function Share(bytes: int, total: int): real {
    if total > 0 then bytes as real / total as real * 100.0 else 0.0
  }

  ghost predicate Sorted(a: seq<UserStat>) {
    forall i, j | 0 <= i < j < |a| :: a[i].bytes >= a[j].bytes
  }

  /** The rows are the merged statistics with their shares filled in, one per user. */
  ghost predicate RowsOf(stats: seq<UserStat>, merged: StatsMap, total: int) {
    && (forall i | 0 <= i < |stats| ::
          stats[i].user in merged && stats[i] == merged[stats[i].user].(percentage := Share(stats[i].bytes, total)))
    && (forall i, j | 0 <= i < j < |stats| :: stats[i].user != stats[j].user)
    && (forall u | u in merged :: exists i :: 0 <= i < |stats| && stats[i].user == u)
  }

  /** Every entry is filed under its own user and has no share yet. */
  ghost predicate Filed(m: StatsMap) { forall u | u in m :: m[u].user == u && m[u].percentage == 0.0 }

  lemma {:induction false} ByUserFiled(rows: seq<HistoryRow>)
    ensures Filed(ByUser(rows))
  {
    if rows != [] { ByUserFiled(rows[..|rows| - 1]); }
  }

  lemma {:induction false} SumStep(m: map<string, int>, k: map<string, int>, u: string)
    requires u in m && u !in k && m == k[u := m[u]]
    ensures Sum(m) == m[u] + Sum(k)
  {
    SumWithout(m, u);
    assert m - {u} == k;
  }

  /** One more live user merged. */
  lemma MergedStep(stats: StatsMap, live: map<string, Act>, todo: set<string>, u: string)
    requires u in live && u in todo
    ensures Merged(stats, live - (todo - {u}))
        == Merged(stats, live - todo)[u := WithLive(Merged(stats, live - todo), u, live[u])]
  {
  }

  /** The two loops that build statsMap. */
  method BuildStats(historical: seq<HistoryRow>, live: map<string, Act>) returns (statsMap: StatsMap)
    ensures statsMap == Merged(ByUser(historical), live)
  {
    statsMap := map[];
    for i := 0 to |historical|
      invariant statsMap == ByUser(historical[..i])
    {
      statsMap := statsMap[historical[i].user := FromRow(historical[i])];
      assert historical[..i + 1][..i] == historical[..i];
    }
    assert historical[..|historical|] == historical;
    ghost var base := statsMap;
    var todo := live.Keys;
    assert live - todo == map[];
    assert statsMap == Merged(base, live - todo);
    while todo != {}
      invariant todo <= live.Keys && statsMap == Merged(base, live - todo)
      decreases todo
    {
      var uid :| uid in todo;
      MergedStep(base, live, todo, uid);
      statsMap := statsMap[uid := WithLive(statsMap, uid, live[uid])];
      todo := todo - {uid};
    }
    assert live - todo == live;
  }

  /** The loop that adds up totalBytes. */
  method TotalBytes(statsMap: StatsMap) returns (total: int)
    ensures total == Sum(Counts(statsMap, BytesAdded))
  {
    total := 0;
    var todo := statsMap.Keys;
    ghost var all := Counts(statsMap, BytesAdded);
    assert all - (statsMap.Keys - todo) == all;
    while todo != {}
      invariant todo <= statsMap.Keys && total + Sum(all - (statsMap.Keys - todo)) == Sum(all)
      decreases todo
    {
      var u :| u in todo;
      SumWithout(all - (statsMap.Keys - todo), u);
      assert all - (statsMap.Keys - todo) - {u} == all - (statsMap.Keys - (todo - {u}));
      total := total + statsMap[u].bytes;
      todo := todo - {u};
    }
    assert all - (statsMap.Keys - todo) == map[];
  }

  /** The loop that fills in the shares and appends the rows, in whatever order the map is visited. */
  method Rows(statsMap: StatsMap, total: int) returns (stats: seq<UserStat>)
    requires Filed(statsMap)
    ensures RowsOf(stats, statsMap, total)
  {
    stats := [];
    var todo := statsMap.Keys;
    while todo != {}
      invariant todo <= statsMap.Keys && RowsOf(stats, statsMap - todo, total)
      decreases todo
    {
      var u :| u in todo;
      RowsStep(stats, statsMap, todo, u, total);
      stats := stats + [statsMap[u].(percentage := Share(statsMap[u].bytes, total))];
      todo := todo - {u};
    }
    assert statsMap - todo == statsMap;
  }

  lemma RowsStep(stats: seq<UserStat>, m: StatsMap, todo: set<string>, u: string, total: int)
    requires Filed(m) && u in m && u in todo && RowsOf(stats, m - todo, total)
    ensures RowsOf(stats + [m[u].(percentage := Share(m[u].bytes, total))], m - (todo - {u}), total)
  {
    var more := stats + [m[u].(percentage := Share(m[u].bytes, total))];
    forall v | v in m - (todo - {u}) ensures exists i :: 0 <= i < |more| && more[i].user == v {
      if v == u {
        assert more[|stats|].user == v;
      } else {
        assert v in m - todo;
        var i :| 0 <= i < |stats| && stats[i].user == v;
        assert more[i].user == v;
      }
    }
  }

  method Exchange(stats: array<UserStat>, i: nat, j: nat)
    requires i < j < stats.Length
    modifies stats
    ensures stats[..] == old(stats[..])[i := old(stats[j])][j := old(stats[i])]
    ensures multiset(stats[..]) == old(multiset(stats[..]))
  {
    stats[i], stats[j] := stats[j], stats[i];
  }

  /** The rows before i are in place: none after them has more bytes. */
  ghost predicate Placed(s: seq<UserStat>, i: int) {
    forall a, b | 0 <= a < i && a < b < |s| :: s[a].bytes >= s[b].bytes
  }

  /** The row at i has as many bytes as each of those up to j. */
  ghost predicate Largest(s: seq<UserStat>, i: int, j: int) {
    0 <= i < |s| && forall b | i < b < j && b < |s| :: s[i].bytes >= s[b].bytes
  }

  lemma ExchangeKeeps(s: seq<UserStat>, i: nat, j: nat)
    requires i < j < |s| && Placed(s, i) && Largest(s, i, j) && s[j].bytes > s[i].bytes
    ensures Placed(s[i := s[j]][j := s[i]], i) && Largest(s[i := s[j]][j := s[i]], i, j + 1)
  {
  }

  /** The inner loop: the largest of the rest ends up at i. */
  method PlaceLargest(stats: array<UserStat>, i: nat)
    requires i < stats.Length && Placed(stats[..], i)
    modifies stats
    ensures Placed(stats[..], i + 1) && multiset(stats[..]) == old(multiset(stats[..]))
  {
    for j := i + 1 to stats.Length
      invariant Placed(stats[..], i) && Largest(stats[..], i, j) && multiset(stats[..]) == old(multiset(stats[..]))
    {
      if stats[j].bytes > stats[i].bytes {
        ExchangeKeeps(stats[..], i, j);
        Exchange(stats, i, j);
      }
    }
  }

  /** The exchange sort. */
  method SortByBytes(stats: array<UserStat>)
    modifies stats
    ensures Sorted(stats[..]) && multiset(stats[..]) == old(multiset(stats[..]))
  {
    for i := 0 to stats.Length
      invariant Placed(stats[..], i) && multiset(stats[..]) == old(multiset(stats[..]))
    {
      PlaceLargest(stats, i);
    }
  }

  /** Exactly one row per user of either source, merged and with its share, bytes non-increasing. */
  method MergeWithLive(historical: seq<HistoryRow>, live: map<string, Act>) returns (stats: seq<UserStat>)
    ensures var merged := Merged(ByUser(historical), live);
            RowsOf(stats, merged, Sum(Counts(merged, BytesAdded))) && Sorted(stats)
  {
    var statsMap := BuildStats(historical, live);
    ByUserFiled(historical);
    var total := TotalBytes(statsMap);
    var rows := Rows(statsMap, total);
    var slice := new UserStat[|rows|](i requires 0 <= i < |rows| => rows[i]);
    assert slice[..] == rows;
    SortByBytes(slice);
    stats := slice[..];
    RowsPermuted(rows, stats, statsMap, total);
  }

  lemma RowsPermuted(a: seq<UserStat>, b: seq<UserStat>, m: StatsMap, total: int)
    requires RowsOf(a, m, total) && multiset(a) == multiset(b)
    ensures RowsOf(b, m, total)
  {
    forall i | 0 <= i < |b| ensures b[i] in a { assert b[i] in multiset(b); }
    forall u | u in m ensures exists i :: 0 <= i < |b| && b[i].user == u {
      var i :| 0 <= i < |a| && a[i].user == u;
      assert a[i] in multiset(b);
    }
    forall i, j | 0 <= i < j < |b| ensures b[i].user != b[j].user {
      if b[i].user == b[j].user {
        assert b[i] == b[j];
        TwiceIn(b, i, j);
        OnceIn(a, b[i]);
      }
    }
  }

  lemma TwiceIn(s: seq<UserStat>, i: nat, j: nat)
    requires i < j < |s| && s[i] == s[j]
    ensures multiset(s)[s[i]] >= 2
  {
    assert s == s[..i] + [s[i]] + s[i + 1..j] + [s[j]] + s[j + 1..];
  }

  lemma {:induction false} OnceIn(s: seq<UserStat>, x: UserStat)
    requires forall i, j | 0 <= i < j < |s| :: s[i].user != s[j].user
    ensures multiset(s)[x] == if x in s then 1 else 0
  {
    if s != [] {
      var n := |s| - 1;
      OnceIn(s[..n], x);
      assert s == s[..n] + [s[n]];
    }
  }

  function AtLeast(s: seq<UserStat>, v: int): nat {
    if s == [] then 0 else AtLeast(s[..|s| - 1], v) + if s[|s| - 1].bytes >= v then 1 else 0
  }

  lemma {:induction false} AtLeastSplit(a: seq<UserStat>, x: UserStat, b: seq<UserStat>, v: int)
    ensures AtLeast(a + [x] + b, v) == AtLeast(a + b, v) + if x.bytes >= v then 1 else 0
  {
    if b == [] {
      assert a + [x] + b == a + [x] && a + b == a;
    } else {
      var n := |b| - 1;
      AtLeastSplit(a, x, b[..n], v);
      assert (a + [x] + b)[..|a + [x] + b| - 1] == a + [x] + b[..n];
      assert (a + b)[..|a + b| - 1] == a + b[..n];
    }
  }

  lemma RemoveOne(a: seq<UserStat>, b: seq<UserStat>, j: nat)
    requires multiset(a) == multiset(b) && a != [] && j < |b| && b[j] == a[|a| - 1]
    ensures multiset(a[..|a| - 1]) == multiset(Without(b, j))
  {
    var n := |a| - 1;
    assert Without(a, n) == a[..n];
    forall x ensures multiset(a[..n])[x] == multiset(Without(b, j))[x] {
      WithoutCount(a, n, x);
      WithoutCount(b, j, x);
    }
  }

  lemma {:induction false} AtLeastPermuted(a: seq<UserStat>, b: seq<UserStat>, v: int)
    requires multiset(a) == multiset(b)
    ensures AtLeast(a, v) == AtLeast(b, v) && |a| == |b|
  {
    assert |a| == |multiset(a)| && |b| == |multiset(b)|;
    if a != [] {
      var n := |a| - 1;
      assert a[n] in multiset(b);
      var j :| 0 <= j < |b| && b[j] == a[n];
      assert b == b[..j] + [b[j]] + b[j + 1..];
      RemoveOne(a, b, j);
      AtLeastPermuted(a[..n], Without(b, j), v);
      AtLeastSplit(b[..j], b[j], b[j + 1..], v);
    }
  }

  lemma {:induction false} AtLeastSorted(s: seq<UserStat>, i: nat, v: int)
    requires Sorted(s) && i < |s|
    ensures AtLeast(s, v) <= |s| && (s[i].bytes >= v <==> i < AtLeast(s, v))
  {
    var n := |s| - 1;
    if n > 0 { AtLeastSorted(s[..n], if i < n then i else n - 1, v); } else { assert s[..n] == []; }
  }

  /** Map iteration order shows only among rows of equal bytes: any two reports of the same data consist of the same
      rows, with the same bytes in every position. */
  lemma OrderShowsOnlyInTies(a: seq<UserStat>, b: seq<UserStat>, merged: StatsMap, total: int)
    requires RowsOf(a, merged, total) && Sorted(a) && RowsOf(b, merged, total) && Sorted(b)
    ensures multiset(a) == multiset(b) && |a| == |b|
    ensures forall i | 0 <= i < |a| :: a[i].bytes == b[i].bytes
  {
    SameRows(a, b, merged, total);
    SameRows(b, a, merged, total);
    forall x ensures multiset(a)[x] == multiset(b)[x] {
      OnceIn(a, x);
      OnceIn(b, x);
    }
    assert multiset(a) == multiset(b);
    AtLeastPermuted(a, b, 0);
    forall i | 0 <= i < |a| ensures a[i].bytes == b[i].bytes {
      AtLeastPermuted(a, b, a[i].bytes);
      AtLeastPermuted(a, b, b[i].bytes);
      AtLeastSorted(a, i, a[i].bytes);
      AtLeastSorted(b, i, a[i].bytes);
      AtLeastSorted(a, i, b[i].bytes);
      AtLeastSorted(b, i, b[i].bytes);
    }
  }

  lemma SameRows(a: seq<UserStat>, b: seq<UserStat>, merged: StatsMap, total: int)
    requires RowsOf(a, merged, total) && RowsOf(b, merged, total)
    ensures forall x | x in a :: x in b
  {
  }
}
