/** Edits of one user's follow list (`subscribedToUserIds`). Subscribing appends
    (`list + [id]`, duplicates kept); the two unsubscribe handlers compute the
    new list differently and are modelled separately here. */
module Follows {
  import opened Entities

  /** `filter((x) => x !== id)`: every occurrence of `id` removed, the rest in
      order. Used by the GraphQL unsubscribe and by the delete-user cascade. */
  function RemoveAll(ids: seq<Id>, id: Id): (r: seq<Id>)
    ensures id !in r
    ensures forall x :: x != id ==> (x in r <==> x in ids)
    ensures id !in ids ==> r == ids
    ensures |r| == |ids| - multiset(ids)[id]
  {
    if |ids| == 0 then []
    else
      assert ids == [ids[0]] + ids[1..];
      (if ids[0] == id then [] else [ids[0]]) + RemoveAll(ids[1..], id)
  }

  /** `RemoveAll` is a filter: it distributes over concatenation. */
  lemma {:induction false} RemoveAllConcat(a: seq<Id>, b: seq<Id>, id: Id)
    ensures RemoveAll(a + b, id) == RemoveAll(a, id) + RemoveAll(b, id)
  {
    if |a| > 0 {
      var head := if a[0] == id then [] else [a[0]];
      assert (a + b)[0] == a[0];
      assert (a + b)[1..] == a[1..] + b;
      assert RemoveAll(a + b, id) == head + RemoveAll(a[1..] + b, id);
      RemoveAllConcat(a[1..], b, id);
      assert RemoveAll(a, id) == head + RemoveAll(a[1..], id);
    } else {
      assert a + b == b;
    }
  }

  /** Subscribing and then unsubscribing through GraphQL gives back a list that
      did not contain the id; if it did, every copy of the id is gone. */
  lemma SubscribeThenRemoveAll(ids: seq<Id>, id: Id)
    ensures RemoveAll(ids + [id], id) == RemoveAll(ids, id)
    ensures id !in ids ==> RemoveAll(ids + [id], id) == ids
  {
    RemoveAllConcat(ids, [id], id);
    assert RemoveAll([id], id) == [];
  }

  /** JavaScript's `findIndex((x) => x === id)`: the first position, or -1. */
  function FindIndex(ids: seq<Id>, id: Id): (r: int)
    ensures -1 <= r < |ids|
    ensures r == -1 <==> id !in ids
    ensures 0 <= r ==> ids[r] == id && id !in ids[..r]
  {
    if |ids| == 0 then -1
    else if ids[0] == id then 0
    else
      var k := FindIndex(ids[1..], id);
      assert k >= 0 ==> ids[..k + 1] == [ids[0]] + ids[1..][..k];
      if k == -1 then -1 else k + 1
  }

  /** The array JavaScript's `splice(start, count)` RETURNS: the removed
      elements. A negative start counts from the end; both ends are clamped. */
  function SpliceRemoved(ids: seq<Id>, start: int, count: nat): (r: seq<Id>)
    ensures |r| <= count
    ensures ids == [] ==> r == []
    ensures count == 1 && 0 <= start < |ids| ==> r == [ids[start]]
    ensures count == 1 && start == -1 && |ids| > 0 ==> r == [ids[|ids| - 1]]
  {
    var from := if start < 0 then (if |ids| + start < 0 then 0 else |ids| + start)
                else (if start > |ids| then |ids| else start);
    var to := if from + count > |ids| then |ids| else from + count;
    ids[from..to]
  }

  /** The list REST `unsubscribeFrom` stores for user `follower`: what
      `splice(findIndex(x === follower), 1)` returns. That is a one-element
      list, the follower's own id if it follows itself and otherwise the old
      last element (the index is then -1). */
  function RestUnsubscribeList(ids: seq<Id>, follower: Id): (r: seq<Id>)
    ensures ids == [] ==> r == []
    ensures |ids| > 0 ==> r == [if follower in ids then follower else ids[|ids| - 1]]
  {
    SpliceRemoved(ids, FindIndex(ids, follower), 1)
  }

  /** A REST subscribe followed by a REST unsubscribe does not undo the
      subscription: the list becomes exactly `[followee]`. */
  lemma RestRoundTripKeepsFollowee(ids: seq<Id>, follower: Id, followee: Id)
    requires follower !in ids && follower != followee
    ensures RestUnsubscribeList(ids + [followee], follower) == [followee]
  {
    assert followee in ids + [followee];
  }

  /** The evidently intended REST unsubscribe: remove one occurrence of
      `id`, the first, and keep the rest in order. */
  function RemoveFirst(ids: seq<Id>, id: Id): (r: seq<Id>)
    ensures id in ids ==> |r| == |ids| - 1
    ensures id !in ids ==> r == ids
    ensures multiset(r) == multiset(ids) - multiset{id}
  {
    if |ids| == 0 then []
    else if ids[0] == id then
      assert ids == [ids[0]] + ids[1..];
      ids[1..]
    else
      assert ids == [ids[0]] + ids[1..];
      [ids[0]] + RemoveFirst(ids[1..], id)
  }

  /** The copy removed is the first one, and the rest keeps its order: the
      result is the list around position `findIndex`. */
  lemma {:induction false} RemoveFirstCutsAtFindIndex(ids: seq<Id>, id: Id)
    requires id in ids
    ensures RemoveFirst(ids, id) == ids[..FindIndex(ids, id)] + ids[FindIndex(ids, id) + 1..]
  {
    if ids[0] == id {
      assert ids[..0] == [];
    } else {
      var t := ids[1..];
      UnfoldPastHead(ids, id);
      var k := FindIndex(t, id);
      RemoveFirstCutsAtFindIndex(t, id);
      SlicesAroundNext(ids, k);
    }
  }

  /** One step of both scans past a head that is not `id`. */
  lemma UnfoldPastHead(ids: seq<Id>, id: Id)
    requires id in ids && ids[0] != id
    ensures id in ids[1..]
    ensures RemoveFirst(ids, id) == [ids[0]] + RemoveFirst(ids[1..], id)
    ensures FindIndex(ids, id) == FindIndex(ids[1..], id) + 1
  {
    assert ids == [ids[0]] + ids[1..];
  }

  lemma SlicesAroundNext(ids: seq<Id>, k: nat)
    requires k + 1 < |ids|
    ensures [ids[0]] + (ids[1..][..k] + ids[1..][k + 1..]) == ids[..k + 1] + ids[k + 2..]
  {
    assert ids[..k + 1] == [ids[0]] + ids[1..][..k];
    assert ids[k + 2..] == ids[1..][k + 1..];
  }

  /** With the intended definition, subscribing and then unsubscribing gives
      back exactly the list the follower had before subscribing. */
  lemma {:induction false} RemoveFirstUndoesSubscribe(ids: seq<Id>, id: Id)
    requires id !in ids
    ensures RemoveFirst(ids + [id], id) == ids
  {
    if |ids| > 0 {
      assert (ids + [id])[0] == ids[0];
      assert (ids + [id])[1..] == ids[1..] + [id];
      RemoveFirstUndoesSubscribe(ids[1..], id);
      assert ids == [ids[0]] + ids[1..];
    }
  }

  /** An input that shows the difference: user "c" follows "a", "b", "d" and
      unfollows "a". */
  lemma UnsubscribeCounterexample()
    ensures RestUnsubscribeList(["a", "b", "d"], "c") == ["d"]
    ensures RemoveFirst(["a", "b", "d"], "a") == ["b", "d"]
  {
    assert "c" !in ["a", "b", "d"];
    assert ["a", "b", "d"][1..] == ["b", "d"];
  }
}
