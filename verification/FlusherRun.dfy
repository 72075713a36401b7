/** The flusher's save loop over a swapped-out map. */
module FlusherRun {
  import opened Analytics
  import opened TrackerRun

  /** The save function injected at startup, remembering its calls. */
  class SaveFn {
    var calls: seq<Save>

    constructor () { calls := []; }

    method Call(docID: string, userID: string, a: Activity, windowEnd: int)
      modifies this
      ensures calls == old(calls) + [Save(Key(docID, userID), a.View(), windowEnd)]
    {
      calls := calls + [Save(Key(docID, userID), Act(a.EditCount, a.BytesAdded, a.ActiveSecs), windowEnd)];
    }
  }

  /** Of the visited entries, exactly those with edits were handed over, once each and as they stand. */
  ghost predicate HandedOver(contents: map<Key, Act>, calls: seq<Save>, windowEnd: int, visited: set<Key>) {
    && (forall i | 0 <= i < |calls| ::
          && calls[i].key in visited && calls[i].key in contents && calls[i].window == windowEnd
          && calls[i].act == contents[calls[i].key] && calls[i].act.edits != 0)
    && (forall i, j | 0 <= i < j < |calls| :: calls[i].key != calls[j].key)
    && (forall k | k in visited && k in contents && contents[k].edits != 0 ::
          exists i :: 0 <= i < |calls| && calls[i].key == k)
  }

  lemma VisitOne(contents: map<Key, Act>, calls: seq<Save>, windowEnd: int, visited: set<Key>, k: Key)
    requires HandedOver(contents, calls, windowEnd, visited) && k in contents && k !in visited
    ensures var more := if contents[k].edits == 0 then calls else calls + [Save(k, contents[k], windowEnd)];
            HandedOver(contents, more, windowEnd, visited + {k})
  {
    var more := if contents[k].edits == 0 then calls else calls + [Save(k, contents[k], windowEnd)];
    forall j | j in visited + {k} && j in contents && contents[j].edits != 0
      ensures exists i :: 0 <= i < |more| && more[i].key == j
    {
      if j == k {
        assert more[|calls|].key == j;
      } else {
        var i :| 0 <= i < |calls| && calls[i].key == j;
        assert more[i].key == j;
      }
    }
  }

  /** The body of the inner loop. */
  method FlushUser(activity: Activity, docID: string, userID: string, windowEnd: int, saveFn: SaveFn,
                   ghost contents: map<Key, Act>, ghost first: nat, ghost visited: set<Key>)
    requires Key(docID, userID) in contents && activity.View() == contents[Key(docID, userID)]
        && first <= |saveFn.calls|
    requires HandedOver(contents, saveFn.calls[first..], windowEnd, visited) && Key(docID, userID) !in visited
    modifies saveFn
    ensures |old(saveFn.calls)| <= |saveFn.calls| && saveFn.calls[..first] == old(saveFn.calls)[..first]
    ensures HandedOver(contents, saveFn.calls[first..], windowEnd, visited + {Key(docID, userID)})
  {
    VisitOne(contents, saveFn.calls[first..], windowEnd, visited, Key(docID, userID));
    if activity.EditCount != 0 {
      AppendAfter(saveFn.calls, first, Save(Key(docID, userID), activity.View(), windowEnd));
      saveFn.Call(docID, userID, activity, windowEnd);
    }
  }

  lemma AppendAfter(calls: seq<Save>, first: nat, call: Save)
    requires first <= |calls|
    ensures (calls + [call])[first..] == calls[first..] + [call] && (calls + [call])[..first] == calls[..first]
  {
  }

  /** The loop over the users of one document. */
  method FlushDoc(snapshot: Buffer, docID: string, windowEnd: int, saveFn: SaveFn,
                  ghost contents: map<Key, Act>, ghost objects: set<Activity>, ghost first: nat,
                  ghost visited: set<Key>)
    returns (ghost visited': set<Key>)
    requires Holds(snapshot, contents, objects) && docID in snapshot && first <= |saveFn.calls|
    requires HandedOver(contents, saveFn.calls[first..], windowEnd, visited) && forall u :: Key(docID, u) !in visited
    modifies saveFn
    ensures |old(saveFn.calls)| <= |saveFn.calls| && saveFn.calls[..first] == old(saveFn.calls)[..first]
    ensures HandedOver(contents, saveFn.calls[first..], windowEnd, visited')
    ensures forall k :: k in visited' <==> k in visited || (k in contents && k.doc == docID)
  {
    visited' := visited;
    var todo := snapshot[docID].Keys;
    while todo != {}
      invariant todo <= snapshot[docID].Keys
      invariant |old(saveFn.calls)| <= |saveFn.calls| && saveFn.calls[..first] == old(saveFn.calls)[..first]
      invariant HandedOver(contents, saveFn.calls[first..], windowEnd, visited')
      invariant forall k :: k in visited' <==> k in visited || (Has(snapshot, k) && k.doc == docID && k.user !in todo)
      decreases todo
    {
      var userID :| userID in todo;
      ghost var k := Key(docID, userID);
      assert Has(snapshot, k);
      FlushUser(snapshot[docID][userID], docID, userID, windowEnd, saveFn, contents, first, visited');
      todo, visited' := todo - {userID}, visited' + {k};
    }
  }

  /** One pass of the flusher hands over every entry with edits exactly once, in some order, and nothing else. */
  method Flush(snapshot: Buffer, windowEnd: int, saveFn: SaveFn, ghost contents: map<Key, Act>,
               ghost objects: set<Activity>)
    requires Holds(snapshot, contents, objects)
    modifies saveFn
    ensures old(saveFn.calls) <= saveFn.calls
    ensures HandedOver(contents, saveFn.calls[|old(saveFn.calls)|..], windowEnd, contents.Keys)
  {
    ghost var visited: set<Key> := {};
    ghost var first := |saveFn.calls|;
    var todo := snapshot.Keys;
    while todo != {}
      invariant todo <= snapshot.Keys
      invariant |old(saveFn.calls)| <= |saveFn.calls| && saveFn.calls[..first] == old(saveFn.calls)
      invariant HandedOver(contents, saveFn.calls[first..], windowEnd, visited)
      invariant forall k :: k in visited <==> k in contents && k.doc !in todo
      decreases todo
    {
      var docID :| docID in todo;
      visited := FlushDoc(snapshot, docID, windowEnd, saveFn, contents, objects, first, visited);
      todo := todo - {docID};
    }
    assert visited == contents.Keys by { assert forall k | k in contents :: Has(snapshot, k); }
  }

  /** So a pass adds, for every document and user, the swapped-out amount if it came with an edit, and nothing if
      not. */
  lemma {:induction false} FlushAdds(contents: map<Key, Act>, calls: seq<Save>, windowEnd: int, k: Key, f: Field)
    requires HandedOver(contents, calls, windowEnd, contents.Keys)
    ensures SumSaved(calls, k, f) == if k in contents && contents[k].edits != 0 then Get(contents[k], f) else 0
  {
    if i :| 0 <= i < |calls| && calls[i].key == k { OnlyCall(calls, i, f); } else { NothingSaved(calls, k, f); }
  }

  lemma {:induction false} OnlyCall(calls: seq<Save>, i: nat, f: Field)
    requires i < |calls| && forall j | 0 <= j < |calls| && j != i :: calls[j].key != calls[i].key
    ensures SumSaved(calls, calls[i].key, f) == Get(calls[i].act, f)
  {
    var n := |calls| - 1;
    if i == n { NothingSaved(calls[..n], calls[i].key, f); } else { OnlyCall(calls[..n], i, f); }
  }
}
