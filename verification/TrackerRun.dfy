/** The tracker as it is written: maps of maps of shared Activity objects, mutated in place, swapped out and copied.
    Every method is tied to the contents in the sense of Analytics; what the swap and the copy isolate is stated of the
    objects themselves, over any number of later calls. */
module TrackerRun {
  import opened Analytics

  class Activity {
    var EditCount: nat
    var BytesAdded: nat
    var ActiveSecs: int

    constructor (a: Act)
      ensures View() == a
    {
      EditCount, BytesAdded, ActiveSecs := a.edits, a.bytes, a.secs;
    }

    ghost function View(): Act
      reads this
    {
      Act(EditCount, BytesAdded, ActiveSecs)
    }
  }

  /** buffer[docID][userID] */
  type Buffer = map<string, map<string, Activity>>

  predicate Has(b: Buffer, k: Key) { k.doc in b && k.user in b[k.doc] }

  /** The buffer holds these contents, in objects of its own, one for each document and user. */
  ghost predicate Holds(b: Buffer, contents: map<Key, Act>, objects: set<Activity>)
    reads objects
  {
    && (forall k :: k in contents <==> Has(b, k))
    && (forall k | k in contents :: b[k.doc][k.user] in objects && b[k.doc][k.user].View() == contents[k])
    && (forall j, k | j in contents && k in contents && b[j.doc][j.user] == b[k.doc][k.user] :: j == k)
  }

  /** Making the entry first changes nothing about what is credited. */
  lemma CreditAfterEntry(m: map<Key, Act>, k: Key, more: Act, act: Act)
    requires act == Act(At(m, k).edits + more.edits, At(m, k).bytes + more.bytes, At(m, k).secs + more.secs)
    ensures m[k := At(m, k)][k := act] == Credit(m, k, more)
  {
  }

  function Added(b: Buffer, k: Key, a: Activity): Buffer
    requires k.doc in b
  {
    b[k.doc := b[k.doc][k.user := a]]
  }

  /** Adding an entry to the map of maps adds that one entry. */
  lemma AddedHas(b: Buffer, k: Key, a: Activity, j: Key)
    requires k.doc in b
    ensures Has(Added(b, k, a), j) <==> Has(b, j) || j == k
    ensures Has(Added(b, k, a), j) ==> Added(b, k, a)[j.doc][j.user] == if j == k then a else b[j.doc][j.user]
  {
  }

  lemma AddedHolds(b: Buffer, contents: map<Key, Act>, objects: set<Activity>, k: Key, a: Activity)
    requires Holds(b, contents, objects) && k.doc in b && !Has(b, k) && a !in objects && a.View() == Act(0, 0, 0)
    ensures Holds(Added(b, k, a), contents[k := Act(0, 0, 0)], objects + {a})
  {
    forall j ensures j in contents[k := Act(0, 0, 0)] <==> Has(Added(b, k, a), j) { AddedHas(b, k, a, j); }
    forall j | Has(Added(b, k, a), j) ensures Added(b, k, a)[j.doc][j.user] == if j == k then a else b[j.doc][j.user] {
      AddedHas(b, k, a, j);
    }
  }

  class Tracker {
    var buffer: Buffer
    ghost var contents: map<Key, Act>
    ghost var objects: set<Activity>

    ghost predicate Valid()
      reads this, objects
    {
      Holds(buffer, contents, objects)
    }

    constructor ()
      ensures Valid() && contents == map[] && objects == {}
    {
      buffer, contents, objects := map[], map[], {};
    }

    /** The two nil checks: make the map of a document, and the entry of a user in it, if there is none. */
    method MakeDoc(docID: string)
      requires Valid()
      modifies this`buffer
      ensures Valid() && docID in buffer
    {
      if docID !in buffer { buffer := buffer[docID := map[]]; }
    }

    method AddEntry(userID: string, docID: string, a: Activity)
      requires Valid() && docID in buffer && userID !in buffer[docID] && a !in objects && a.View() == Act(0, 0, 0)
      modifies this
      ensures Valid() && objects == old(objects) + {a} && Has(buffer, Key(docID, userID))
      ensures contents == old(contents)[Key(docID, userID) := Act(0, 0, 0)]
    {
      ghost var k := Key(docID, userID);
      AddedHolds(buffer, contents, objects, k, a);
      buffer := buffer[docID := buffer[docID][userID := a]];
      objects, contents := objects + {a}, contents[k := Act(0, 0, 0)];
    }

    method Entry(userID: string, docID: string) returns (a: Activity)
      requires Valid()
      modifies this
      ensures Valid() && fresh(objects - old(objects)) && Has(buffer, Key(docID, userID)) && a == buffer[docID][userID]
      ensures a in objects && a.View() == At(old(contents), Key(docID, userID))
      ensures contents == old(contents)[Key(docID, userID) := At(old(contents), Key(docID, userID))]
    {
      ghost var k, before := Key(docID, userID), contents;
      MakeDoc(docID);
      if userID !in buffer[docID] {
        assert !Has(buffer, k);
        a := new Activity(Act(0, 0, 0));
        AddEntry(userID, docID, a);
      } else {
        assert Has(buffer, k);
        assert before[k := before[k]] == before;
      }
      a := buffer[docID][userID];
      assert k in contents;
    }

    /** The object's counters become `act`: nobody else's do. */
    method Put(a: Activity, ghost k: Key, act: Act)
      requires Valid() && k in contents && a == buffer[k.doc][k.user]
      modifies a, this`contents
      ensures Valid() && contents == old(contents)[k := act]
    {
      a.EditCount, a.BytesAdded, a.ActiveSecs := act.edits, act.bytes, act.secs;
      contents := contents[k := act];
    }

    method Record(userID: string, docID: string, bytes: nat)
      requires Valid()
      modifies this, objects
      ensures Valid() && fresh(objects - old(objects))
      ensures contents == Credit(old(contents), Key(docID, userID), Act(1, bytes, 0))
    {
      var a := Entry(userID, docID);
      var act := Act(a.EditCount + 1, a.BytesAdded + bytes, a.ActiveSecs);
      CreditAfterEntry(old(contents), Key(docID, userID), Act(1, bytes, 0), act);
      Put(a, Key(docID, userID), act);
    }

    method RecordActiveTime(userID: string, docID: string, secs: int)
      requires Valid()
      modifies this, objects
      ensures Valid() && fresh(objects - old(objects))
      ensures contents == Credit(old(contents), Key(docID, userID), Act(0, 0, secs))
    {
      var a := Entry(userID, docID);
      var act := Act(a.EditCount, a.BytesAdded, a.ActiveSecs + secs);
      CreditAfterEntry(old(contents), Key(docID, userID), Act(0, 0, secs), act);
      Put(a, Key(docID, userID), act);
    }

    /** The flusher's critical section. */
    method Swap() returns (snapshot: Buffer)
      requires Valid()
      modifies this
      ensures Valid() && contents == map[] && objects == {}
      ensures snapshot == old(buffer) && Holds(snapshot, old(contents), old(objects))
    {
      snapshot := buffer;
      buffer, contents, objects := map[], map[], {};
    }

    /** A deep copy of one document's entries. */
    method GetSnapshot(docID: string) returns (result: map<string, Activity>)
      requires Valid()
      ensures forall u | u in result :: fresh(result[u])
      ensures forall u, v | u in result && v in result && result[u] == result[v] :: u == v
      ensures forall u :: u in result <==> Key(docID, u) in contents
      ensures forall u | u in result :: result[u].View() == contents[Key(docID, u)]
    {
      result := map[];
      if docID !in buffer {
        assert forall u :: !Has(buffer, Key(docID, u));
        return;
      }
      var todo := buffer[docID].Keys;
      while todo != {}
        invariant todo <= buffer[docID].Keys && result.Keys == buffer[docID].Keys - todo
        invariant forall u | u in result :: fresh(result[u])
        invariant forall u, v | u in result && v in result && result[u] == result[v] :: u == v
        invariant forall u | u in result :: Key(docID, u) in contents && result[u].View() == contents[Key(docID, u)]
        decreases todo
      {
        var uid :| uid in todo;
        var act := buffer[docID][uid];
        assert Has(buffer, Key(docID, uid));
        var copy := new Activity(Act(act.EditCount, act.BytesAdded, act.ActiveSecs));
        result := result[uid := copy];
        todo := todo - {uid};
      }
      assert forall u | Key(docID, u) in contents :: Has(buffer, Key(docID, u));
    }
  }

  /** A call of Record or RecordActiveTime, or the swap of a flusher's tick. */
  datatype Call = Edit(user: string, doc: string, bytes: nat) | Focus(user: string, doc: string, secs: int) | Rotate

  function Credits(b: map<Key, Act>, calls: seq<Call>): map<Key, Act> {
    if calls == [] then b
    else
      var before, last := Credits(b, calls[..|calls| - 1]), calls[|calls| - 1];
      match last
      case Edit(user, doc, bytes) => Credit(before, Key(doc, user), Act(1, bytes, 0))
      case Focus(user, doc, secs) => Credit(before, Key(doc, user), Act(0, 0, secs))
      case Rotate => map[]
  }

  /** Whatever is recorded afterwards goes to other objects, also across more swaps: a swapped-out map is the
      flusher's. */
  method RecordAll(t: Tracker, calls: seq<Call>, ghost apart: set<Activity>)
    requires t.Valid() && t.objects !! apart
    modifies t, t.objects
    ensures t.Valid() && t.objects !! apart && fresh(t.objects - old(t.objects))
    ensures t.contents == Credits(old(t.contents), calls)
  {
    for i := 0 to |calls|
      invariant t.Valid() && t.objects !! apart && fresh(t.objects - old(t.objects))
      invariant t.contents == Credits(old(t.contents), calls[..i])
    {
      match calls[i] {
        case Edit(user, doc, bytes) => t.Record(user, doc, bytes);
        case Focus(user, doc, secs) => t.RecordActiveTime(user, doc, secs);
        case Rotate => var _ := t.Swap();
      }
      assert calls[..i + 1][..i] == calls[..i];
    }
    assert calls[..|calls|] == calls;
  }

  /** A swap followed by any calls: the swapped-out objects still hold what they held, and the new buffer holds
      exactly the later calls. */
  method SwapIsolates(t: Tracker, calls: seq<Call>) returns (snapshot: Buffer)
    requires t.Valid()
    modifies t
    ensures snapshot == old(t.buffer) && Holds(snapshot, old(t.contents), old(t.objects))
    ensures forall a | a in old(t.objects) :: a.View() == old(a.View())
    ensures t.Valid() && t.contents == Credits(map[], calls) && t.objects !! old(t.objects)
  {
    ghost var apart := t.objects;
    snapshot := t.Swap();
    RecordAll(t, calls, apart);
  }

  /** A copy followed by any calls: the copies still hold what they held. */
  method CopyIsolates(t: Tracker, docID: string, calls: seq<Call>) returns (result: map<string, Activity>)
    requires t.Valid()
    modifies t, t.objects
    ensures forall u :: u in result <==> Key(docID, u) in old(t.contents)
    ensures forall u | u in result :: result[u].View() == old(t.contents)[Key(docID, u)]
    ensures t.Valid() && t.contents == Credits(old(t.contents), calls)
  {
    result := t.GetSnapshot(docID);
    RecordAll(t, calls, set u | u in result :: result[u]);
  }
}
