/** Contribution counters: recorded in RAM, swapped out by a flusher, handed entry by entry to the save function, and
    read by the live report. The flusher, the forced flush on shutdown and the recorders interleave in any order. */
module Analytics {

  datatype Key = Key(doc: string, user: string)

  /** The counters of an Activity. */
  datatype Act = Act(edits: nat, bytes: nat, secs: int)

  datatype Field = Edits | BytesAdded | ActiveSecs

  function Get(a: Act, f: Field): int {
    match f
    case Edits => a.edits
    case BytesAdded => a.bytes
    case ActiveSecs => a.secs
  }

  function At(b: map<Key, Act>, k: Key): Act { if k in b then b[k] else Act(0, 0, 0) }

  function Credit(b: map<Key, Act>, k: Key, a: Act): map<Key, Act> {
    b[k := Act(At(b, k).edits + a.edits, At(b, k).bytes + a.bytes, At(b, k).secs + a.secs)]
  }

  /** One call of the save function. */
  datatype Save = Save(key: Key, act: Act, window: int)

  /** `inFlight` are swapped-out maps being saved, `saved` the calls made so far. History: everything ever recorded, and
      what the flusher skipped because its edit count was zero. */
  datatype Stats = Stats(buffer: map<Key, Act>, inFlight: seq<map<Key, Act>>, saved: seq<Save>,
                         recorded: map<Key, Act>, skipped: map<Key, Act>)

  datatype StatEvent =
    | Record(k: Key, bytes: nat)
    | RecordActive(k: Key, secs: int)
    | Swap                                // a flusher tick, or the forced flush
    | Visit(i: nat, k: Key, window: int)  // the save loop reaches an entry of a swapped-out map

  predicate StatEnabled(s: Stats, e: StatEvent) {
    e.Visit? ==> e.i < |s.inFlight| && e.k in s.inFlight[e.i]
  }

  function StatStep(s: Stats, e: StatEvent): Stats {
    if !StatEnabled(s, e) then s else
    match e
    case Record(k, bytes) =>
      s.(buffer := Credit(s.buffer, k, Act(1, bytes, 0)), recorded := Credit(s.recorded, k, Act(1, bytes, 0)))
    case RecordActive(k, secs) =>
      s.(buffer := Credit(s.buffer, k, Act(0, 0, secs)), recorded := Credit(s.recorded, k, Act(0, 0, secs)))
    case Swap => s.(buffer := map[], inFlight := s.inFlight + [s.buffer])
    case Visit(i, k, window) =>
      var act := s.inFlight[i][k];
      var rest := s.(inFlight := s.inFlight[i := s.inFlight[i] - {k}]);
      if act.edits == 0 then rest.(skipped := Credit(s.skipped, k, act))
      else rest.(saved := s.saved + [Save(k, act, window)])
  }

  function StatRun(es: seq<StatEvent>): Stats {
    if es == [] then Stats(map[], [], [], map[], map[])
    else StatStep(StatRun(es[..|es| - 1]), es[|es| - 1])
  }

  function Amount(b: map<Key, Act>, k: Key, f: Field): int { Get(At(b, k), f) }

  /** How much the save function was handed for a key, and how much is on its way to it. */
  function SumSaved(saved: seq<Save>, k: Key, f: Field): int {
    if saved == [] then 0
    else
      var last := saved[|saved| - 1];
      SumSaved(saved[..|saved| - 1], k, f) + if last.key == k then Get(last.act, f) else 0
  }

  function SumFlight(inFlight: seq<map<Key, Act>>, k: Key, f: Field): int {
    if inFlight == [] then 0
    else SumFlight(inFlight[..|inFlight| - 1], k, f) + Amount(inFlight[|inFlight| - 1], k, f)
  }

  /** An entry without edits has no bytes either: only RecordActiveTime makes one. */
  ghost predicate BytesNeedEdits(b: map<Key, Act>) {
    forall k | k in b :: b[k].edits == 0 ==> b[k].bytes == 0
  }

  ghost predicate SkipsAreIdle(s: Stats) {
    && BytesNeedEdits(s.buffer)
    && (forall i | 0 <= i < |s.inFlight| :: BytesNeedEdits(s.inFlight[i]))
    && (forall k :: Amount(s.skipped, k, Edits) == 0 && Amount(s.skipped, k, BytesAdded) == 0)
  }

  ghost predicate Balanced(s: Stats, k: Key, f: Field) {
    Amount(s.recorded, k, f)
      == SumSaved(s.saved, k, f) + SumFlight(s.inFlight, k, f) + Amount(s.buffer, k, f) + Amount(s.skipped, k, f)
  }

  lemma {:induction false} FlightWithout(inFlight: seq<map<Key, Act>>, i: nat, key: Key, k: Key, f: Field)
    requires i < |inFlight| && key in inFlight[i]
    ensures SumFlight(inFlight, k, f)
         == SumFlight(inFlight[i := inFlight[i] - {key}], k, f) + if k == key then Get(inFlight[i][key], f) else 0
  {
    var rest := inFlight[i := inFlight[i] - {key}];
    var n := |inFlight| - 1;
    if i == n {
      assert rest[..n] == inFlight[..n];
    } else {
      FlightWithout(inFlight[..n], i, key, k, f);
      assert rest[..n] == inFlight[..n][i := inFlight[i] - {key}];
    }
  }

  lemma CreditAmount(b: map<Key, Act>, key: Key, a: Act, k: Key, f: Field)
    ensures Amount(Credit(b, key, a), k, f) == Amount(b, k, f) + if k == key then Get(a, f) else 0
  {
  }

  lemma BalancedCredit(s: Stats, t: Stats, key: Key, a: Act, k: Key, f: Field)
    requires Balanced(s, k, f)
    requires t == s.(buffer := Credit(s.buffer, key, a), recorded := Credit(s.recorded, key, a))
    ensures Balanced(t, k, f)
  {
    CreditAmount(s.buffer, key, a, k, f);
    CreditAmount(s.recorded, key, a, k, f);
  }

  lemma BalancedVisit(s: Stats, e: StatEvent, k: Key, f: Field)
    requires Balanced(s, k, f) && e.Visit? && StatEnabled(s, e)
    ensures Balanced(StatStep(s, e), k, f)
  {
    var act := s.inFlight[e.i][e.k];
    FlightWithout(s.inFlight, e.i, e.k, k, f);
    if act.edits != 0 { assert (s.saved + [Save(e.k, act, e.window)])[..|s.saved|] == s.saved; }
  }

  lemma BalancedStep(s: Stats, e: StatEvent, k: Key, f: Field)
    requires Balanced(s, k, f)
    ensures Balanced(StatStep(s, e), k, f)
  {
    if StatEnabled(s, e) {
      match e
      case Visit(_, _, _) => BalancedVisit(s, e, k, f);
      case Swap => assert (s.inFlight + [s.buffer])[..|s.inFlight|] == s.inFlight;
      case Record(key, bytes) => BalancedCredit(s, StatStep(s, e), key, Act(1, bytes, 0), k, f);
      case RecordActive(key, secs) => BalancedCredit(s, StatStep(s, e), key, Act(0, 0, secs), k, f);
    }
  }

  lemma {:induction false} AlwaysBalanced(es: seq<StatEvent>, k: Key, f: Field)
    ensures Balanced(StatRun(es), k, f)
  {
    if es != [] {
      AlwaysBalanced(es[..|es| - 1], k, f);
      BalancedStep(StatRun(es[..|es| - 1]), es[|es| - 1], k, f);
    }
  }

  lemma {:induction false} SkipsAreAlwaysIdle(es: seq<StatEvent>)
    ensures SkipsAreIdle(StatRun(es))
  {
    if es != [] {
      var s, e := StatRun(es[..|es| - 1]), es[|es| - 1];
      SkipsAreAlwaysIdle(es[..|es| - 1]);
      if StatEnabled(s, e) && e.Visit? { assert BytesNeedEdits(s.inFlight[e.i]); }
      forall k
        ensures Amount(StatStep(s, e).skipped, k, Edits) == 0 && Amount(StatStep(s, e).skipped, k, BytesAdded) == 0
      {
        assert Amount(s.skipped, k, Edits) == 0 && Amount(s.skipped, k, BytesAdded) == 0;
      }
    }
  }

  /** In every interleaving, per document and user: recorded edits and bytes equal saved plus in-flight plus buffered,
      and seconds too except for exactly those of the entries that the flusher found without edits. */
  lemma {:induction false} FlushConserves(es: seq<StatEvent>, k: Key, f: Field)
    ensures var s := StatRun(es);
            Amount(s.recorded, k, f)
              == SumSaved(s.saved, k, f) + SumFlight(s.inFlight, k, f) + Amount(s.buffer, k, f)
               + if f.ActiveSecs? then At(s.skipped, k).secs else 0
  {
    AlwaysBalanced(es, k, f);
    SkipsAreAlwaysIdle(es);
  }

  /** What the calls themselves say about a key: one edit and its bytes for each Record, the seconds for each
      RecordActiveTime. */
  function Called(es: seq<StatEvent>, k: Key, f: Field): int {
    if es == [] then 0
    else
      Called(es[..|es| - 1], k, f) +
      match es[|es| - 1]
      case Record(key, bytes) => if key != k then 0 else if f.Edits? then 1 else if f.BytesAdded? then bytes else 0
      case RecordActive(key, secs) => if key == k && f.ActiveSecs? then secs else 0
      case _ => 0
  }

  /** What is conserved is what was called for: in every run, `recorded` is the sum over the calls, so every call
      counts. */
  lemma {:induction false} RecordedIsCalled(es: seq<StatEvent>, k: Key, f: Field)
    ensures Amount(StatRun(es).recorded, k, f) == Called(es, k, f)
  {
    if es != [] {
      var s, e := StatRun(es[..|es| - 1]), es[|es| - 1];
      RecordedIsCalled(es[..|es| - 1], k, f);
      match e
      case Record(key, bytes) => CreditAmount(s.recorded, key, Act(1, bytes, 0), k, f);
      case RecordActive(key, secs) => CreditAmount(s.recorded, key, Act(0, 0, secs), k, f);
      case _ =>
    }
  }

  /** Every save is of an entry the flusher's loop reached, under the window end of that loop. */
  lemma {:induction false} SavesAreVisits(es: seq<StatEvent>, i: nat)
    requires i < |StatRun(es).saved|
    ensures exists n | 0 <= n < |es| && es[n].Visit? ::
              es[n].k == StatRun(es).saved[i].key && es[n].window == StatRun(es).saved[i].window
  {
    var s, e := StatRun(es[..|es| - 1]), es[|es| - 1];
    if i < |s.saved| {
      SavesAreVisits(es[..|es| - 1], i);
      var n :| 0 <= n < |es| - 1 && es[..|es| - 1][n].Visit?
            && es[n].k == s.saved[i].key && es[n].window == s.saved[i].window;
    }
  }

  lemma {:induction false} StatMore(es: seq<StatEvent>, e: StatEvent)
    ensures StatRun(es + [e]) == StatStep(StatRun(es), e)
  {
  }

  /** Nothing of the key's was edited: its entries have no edits, and none of them was saved. */
  ghost predicate OnlyReads(s: Stats, k: Key) {
    && At(s.buffer, k).edits == 0
    && (forall i | 0 <= i < |s.inFlight| :: At(s.inFlight[i], k).edits == 0)
    && forall i | 0 <= i < |s.saved| :: s.saved[i].key != k
  }

  lemma {:induction false} ReadersStayReaders(es: seq<StatEvent>, k: Key)
    requires forall i | 0 <= i < |es| && es[i].Record? :: es[i].k != k
    ensures OnlyReads(StatRun(es), k)
  {
    if es != [] { ReadersStayReaders(es[..|es| - 1], k); }
  }

  lemma {:induction false} NothingSaved(saved: seq<Save>, k: Key, f: Field)
    requires forall i | 0 <= i < |saved| :: saved[i].key != k
    ensures SumSaved(saved, k, f) == 0
  {
    if saved != [] { NothingSaved(saved[..|saved| - 1], k, f); }
  }

  /** In every run, someone who only reads a document is never credited with anything: no call of the save function is
      for them, and all their time is buffered, in flight, or lost at the flusher. */
  lemma {:induction false} ReadersAreNeverCredited(es: seq<StatEvent>, k: Key, f: Field)
    requires forall i | 0 <= i < |es| && es[i].Record? :: es[i].k != k
    ensures var s := StatRun(es);
            && (forall i | 0 <= i < |s.saved| :: s.saved[i].key != k) && SumSaved(s.saved, k, f) == 0
            && At(s.recorded, k).secs
                 == SumFlight(s.inFlight, k, ActiveSecs) + At(s.buffer, k).secs + At(s.skipped, k).secs
  {
    ReadersStayReaders(es, k);
    NothingSaved(StatRun(es).saved, k, f);
    NothingSaved(StatRun(es).saved, k, ActiveSecs);
    FlushConserves(es, k, ActiveSecs);
  }

  /** For one, this reader's time is lost. */
  lemma ReadersTimeIsLost(k: Key, secs: int, window: int)
    ensures StatRun([] + [RecordActive(k, secs)] + [Swap] + [Visit(0, k, window)])
         == Stats(map[], [map[]], [], map[k := Act(0, 0, secs)], map[k := Act(0, 0, secs)])
  {
    var once := map[k := Act(0, 0, secs)];
    StatMore([], RecordActive(k, secs));
    StatMore([] + [RecordActive(k, secs)], Swap);
    assert StatRun([] + [RecordActive(k, secs)] + [Swap]) == Stats(map[], [once], [], once, map[]);
    StatMore([] + [RecordActive(k, secs)] + [Swap], Visit(0, k, window));
    assert once - {k} == map[];
  }

  lemma {:induction false} SavedExtends(es: seq<StatEvent>, later: seq<StatEvent>)
    ensures StatRun(es).saved <= StatRun(es + later).saved
  {
    if later == [] {
      assert es + later == es;
    } else {
      SavedExtends(es, later[..|later| - 1]);
      assert (es + later)[..|es + later| - 1] == es + later[..|later| - 1];
    }
  }

  lemma {:induction false} SumSavedConcat(a: seq<Save>, b: seq<Save>, k: Key, f: Field)
    ensures SumSaved(a + b, k, f) == SumSaved(a, k, f) + SumSaved(b, k, f)
  {
    if b == [] {
      assert a + b == a;
    } else {
      SumSavedConcat(a, b[..|b| - 1], k, f);
      assert (a + b)[..|a + b| - 1] == a + b[..|b| - 1];
    }
  }

  /** The save calls made between two moments of a run. */
  function SavedBetween(es: seq<StatEvent>, later: seq<StatEvent>): seq<Save> {
    SavedExtends(es, later);
    StatRun(es + later).saved[|StatRun(es).saved|..]
  }

  /** GetAnalytics reads the history when `es` has happened and the RAM after `later`. What it reports falls short of
      what was recorded by exactly what was saved in between and what is still in flight, so it never exceeds it. */
  lemma {:induction false} ReportNeverOvercounts(es: seq<StatEvent>, later: seq<StatEvent>, k: Key, f: Field)
    requires !f.ActiveSecs?
    ensures var now := StatRun(es + later);
            var reported := SumSaved(StatRun(es).saved, k, f) + Amount(now.buffer, k, f);
            var missed := SumSaved(SavedBetween(es, later), k, f) + SumFlight(now.inFlight, k, f);
            Amount(now.recorded, k, f) == reported + missed && missed >= 0
  {
    var now := StatRun(es + later);
    FlushConserves(es + later, k, f);
    SavedExtends(es, later);
    SumSavedConcat(StatRun(es).saved, SavedBetween(es, later), k, f);
    assert now.saved == StatRun(es).saved + SavedBetween(es, later);
    SavedNonnegative(SavedBetween(es, later), k, f);
    FlightNonnegative(now.inFlight, k, f);
  }

  lemma {:induction false} SavedNonnegative(saved: seq<Save>, k: Key, f: Field)
    requires !f.ActiveSecs?
    ensures SumSaved(saved, k, f) >= 0
  {
    if saved != [] { SavedNonnegative(saved[..|saved| - 1], k, f); }
  }

  lemma {:induction false} FlightNonnegative(inFlight: seq<map<Key, Act>>, k: Key, f: Field)
    requires !f.ActiveSecs?
    ensures SumFlight(inFlight, k, f) >= 0
  {
    if inFlight != [] { FlightNonnegative(inFlight[..|inFlight| - 1], k, f); }
  }

  /** The order of the two reads matters: the RAM first and the history later counts an edit twice. */
  lemma {:induction false} ReadingRamFirstOvercounts(k: Key, bytes: nat, window: int)
    ensures var before := StatRun([] + [Record(k, bytes)]);
            var now := StatRun([] + [Record(k, bytes)] + [Swap] + [Visit(0, k, window)]);
            && Amount(now.recorded, k, Edits) == 1
            && Amount(before.buffer, k, Edits) + SumSaved(now.saved, k, Edits) == 2
  {
    var once := map[k := Act(1, bytes, 0)];
    StatMore([], Record(k, bytes));
    StatMore([] + [Record(k, bytes)], Swap);
    assert StatRun([] + [Record(k, bytes)] + [Swap]) == Stats(map[], [once], [], once, map[]);
    StatMore([] + [Record(k, bytes)] + [Swap], Visit(0, k, window));
    var saved := [Save(k, Act(1, bytes, 0), window)];
    assert StatRun([] + [Record(k, bytes)] + [Swap] + [Visit(0, k, window)]).saved == saved;
    assert saved[..0] == [];
  }
}
