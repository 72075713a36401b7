/** GetAnalytics from end to end: the history is read from the table, then the RAM, and both are merged into the
    report. */
module LiveReport {
  import opened Analytics
  import opened Contributions
  import opened Report
  import opened ReportTotals

  /** The answer of GetContributions: one row per user with the table's totals. */
  ghost predicate HistoryOf(historical: seq<HistoryRow>, table: seq<Contributions.Row>, doc: string) {
    && DistinctUsers(historical)
    && forall i | 0 <= i < |historical| ::
         && historical[i].edits == History(table, Key(doc, historical[i].user), Edits)
         && historical[i].bytes == History(table, Key(doc, historical[i].user), BytesAdded)
         && historical[i].secs == History(table, Key(doc, historical[i].user), ActiveSecs)
  }

  /** The answer of GetSnapshot. */
  ghost predicate LiveOf(live: map<string, Act>, buffer: map<Key, Act>, doc: string) {
    forall u :: (u in live <==> Key(doc, u) in buffer) && (u in live ==> live[u] == buffer[Key(doc, u)])
  }

  /** The report's entry for a user is the sum of the user's history row, if there is one, and buffer entry. */
  lemma {:induction false} EntryCount(historical: seq<HistoryRow>, live: map<string, Act>,
                                      table: seq<Contributions.Row>, buffer: map<Key, Act>, doc: string, u: string,
                                      f: Field)
    requires HistoryOf(historical, table, doc) && LiveOf(live, buffer, doc)
    requires u in Merged(ByUser(historical), live)
    ensures var k := Key(doc, u);
            Count(Merged(ByUser(historical), live)[u], f)
              == Amount(buffer, k, f) + if u in ByUser(historical) then History(table, k, f) else 0
  {
    ByUserKeys(historical, u);
    if i: nat :| i < |historical| && historical[i].user == u { ByUserValue(historical, i); }
    assert u in live <==> Key(doc, u) in buffer;
  }

  lemma {:induction false} HistoryNonnegative(saves: seq<Save>, binding: Binding, k: Key, f: Field)
    requires !f.ActiveSecs?
    ensures History(Table(binding, saves), k, f) >= 0
  {
    TableAccumulates(saves, k, f);
    ShippedTableIsZero(saves, k, f);
    SavedNonnegative(saves, k, f);
  }

  /** Nobody is ever shown with more edits or bytes than they made: whatever was recorded, swapped and saved before the
      history was read and between the two reads. */
  lemma {:induction false} EveryRowIsEarned(es: seq<StatEvent>, later: seq<StatEvent>, binding: Binding, doc: string,
                                            historical: seq<HistoryRow>, live: map<string, Act>, stats: seq<UserStat>,
                                            total: int, f: Field)
    requires HistoryOf(historical, Table(binding, StatRun(es).saved), doc)
        && LiveOf(live, StatRun(es + later).buffer, doc)
    requires RowsOf(stats, Merged(ByUser(historical), live), total) && !f.ActiveSecs?
    ensures forall i | 0 <= i < |stats| ::
              Count(stats[i], f) <= Amount(StatRun(es + later).recorded, Key(doc, stats[i].user), f)
  {
    var table, now := Table(binding, StatRun(es).saved), StatRun(es + later);
    forall i | 0 <= i < |stats| ensures Count(stats[i], f) <= Amount(now.recorded, Key(doc, stats[i].user), f) {
      var k := Key(doc, stats[i].user);
      EntryCount(historical, live, table, now.buffer, doc, stats[i].user, f);
      LiveReportNeverOvercounts(es, later, binding, k, f);
      HistoryNonnegative(StatRun(es).saved, binding, k, f);
    }
  }

  /** No user of the document with a row in the table is missing from the answer. */
  ghost predicate Complete(historical: seq<HistoryRow>, table: seq<Contributions.Row>, doc: string) {
    forall r | r in table && r.key.doc == doc :: exists i :: 0 <= i < |historical| && historical[i].user == r.key.user
  }

  lemma {:induction false} NoTableRow(table: seq<Contributions.Row>, k: Key, f: Field)
    requires forall r | r in table :: r.key != k
    ensures History(table, k, f) == 0
  {
    if table != [] { NoTableRow(table[1..], k, f); }
  }

  /** And with the values meant to be saved, what a row falls short by is exactly what was saved between the two reads
      plus what is in flight. */
  lemma {:induction false} RowsMissOnlyTheUnread(es: seq<StatEvent>, later: seq<StatEvent>, doc: string,
                                                 historical: seq<HistoryRow>, live: map<string, Act>,
                                                 stats: seq<UserStat>, total: int, f: Field)
    requires HistoryOf(historical, Table(Meant, StatRun(es).saved), doc)
        && LiveOf(live, StatRun(es + later).buffer, doc)
    requires Complete(historical, Table(Meant, StatRun(es).saved), doc)
    requires RowsOf(stats, Merged(ByUser(historical), live), total) && !f.ActiveSecs?
    ensures forall i | 0 <= i < |stats| ::
              var k := Key(doc, stats[i].user);
              Amount(StatRun(es + later).recorded, k, f)
                == Count(stats[i], f) + SumSaved(SavedBetween(es, later), k, f)
                    + SumFlight(StatRun(es + later).inFlight, k, f)
  {
    var table, now := Table(Meant, StatRun(es).saved), StatRun(es + later);
    forall i | 0 <= i < |stats|
      ensures var k := Key(doc, stats[i].user);
              Amount(now.recorded, k, f) == Count(stats[i], f) + SumSaved(SavedBetween(es, later), k, f)
                  + SumFlight(now.inFlight, k, f)
    {
      var k := Key(doc, stats[i].user);
      EntryCount(historical, live, table, now.buffer, doc, k.user, f);
      ByUserKeys(historical, k.user);
      if k.user !in ByUser(historical) { NoTableRow(table, k, f); }
      LiveReportNeverOvercounts(es, later, Meant, k, f);
    }
  }

  /** A row's seconds are only those still buffered, for editors too, since the table has none. They are right if and
      only if what was saved, is in flight and was skipped comes to no time at all. */
  lemma {:induction false} SecondsAreRightIff(es: seq<StatEvent>, later: seq<StatEvent>, binding: Binding,
                                              doc: string, historical: seq<HistoryRow>, live: map<string, Act>,
                                              stats: seq<UserStat>, total: int)
    requires HistoryOf(historical, Table(binding, StatRun(es).saved), doc)
    requires LiveOf(live, StatRun(es + later).buffer, doc) && RowsOf(stats, Merged(ByUser(historical), live), total)
    ensures forall i | 0 <= i < |stats| ::
              var now, k := StatRun(es + later), Key(doc, stats[i].user);
              && stats[i].secs == Amount(now.buffer, k, ActiveSecs)
              && (stats[i].secs == Amount(now.recorded, k, ActiveSecs) <==>
                  0 == SumSaved(now.saved, k, ActiveSecs) + SumFlight(now.inFlight, k, ActiveSecs)
                       + At(now.skipped, k).secs)
  {
    var table, now := Table(binding, StatRun(es).saved), StatRun(es + later);
    forall i | 0 <= i < |stats|
      ensures var k := Key(doc, stats[i].user);
              && stats[i].secs == Amount(now.buffer, k, ActiveSecs)
              && Amount(now.recorded, k, ActiveSecs) == stats[i].secs
                 + SumSaved(now.saved, k, ActiveSecs) + SumFlight(now.inFlight, k, ActiveSecs) + At(now.skipped, k).secs
    {
      var k := Key(doc, stats[i].user);
      EntryCount(historical, live, table, now.buffer, doc, k.user, ActiveSecs);
      TableHasNoSeconds(table, k);
      FlushConserves(es + later, k, ActiveSecs);
    }
  }
}
