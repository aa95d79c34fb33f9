/** `ApiWrap::saveStickerSets` as the code runs it, in place, against the two specifications. */
module StickersApi {
  import opened StickerSets
  import opened StickerSaves

  /** How many uninstall requests the removals send. */
  function Uninstalls(store: Store, removed: seq<SetId>): nat
    decreases |removed|
  {
    if removed == [] then 0
    else
      var rest, last := removed[..|removed| - 1], removed[|removed| - 1];
      Uninstalls(store, rest) + if SendsUninstall(RemoveAll(store, rest), last) then 1 else 0
  }

  /** How many install requests the new order sends. */
  function Installs(sets: map<SetId, StickersSet>, order: seq<SetId>, removed: seq<SetId>, now: int): nat
    decreases |order|
  {
    if order == [] then 0
    else
      var rest, last := order[..|order| - 1], order[|order| - 1];
      Installs(sets, rest, removed, now)
      + if SendsInstall(InstallAll(sets, rest, removed, now), last, removed) then 1 else 0
  }

  /** The uninstall and install requests of one save. */
  function RequestsOf(store: Store, localOrder: seq<SetId>, localRemoved: seq<SetId>, kind: Kind, now: int): nat {
    Uninstalls(store, localRemoved)
    + Installs(Cleared(RemoveAll(store, localRemoved).sets, kind), localOrder, localRemoved, now)
  }

  /** The set is stored, not archived, and not gone with the recent stickers when its turn comes. */
  ghost predicate IsUninstalled(store: Store, removed: seq<SetId>, i: nat)
    requires i < |removed|
  {
    var id := removed[i];
    && id != CLOUD_RECENT && id != CLOUD_RECENT_ATTACHED
    && id in store.sets && !store.sets[id].archived
    && (id == CUSTOM ==> !ClearsRecent(removed[..i]))
  }

  /** Uninstall requests are sent exactly if a stored set is removed that is not archived. */
  lemma {:induction false} UninstallsIff(store: Store, removed: seq<SetId>)
    ensures Uninstalls(store, removed) > 0 <==> exists i :: 0 <= i < |removed| && IsUninstalled(store, removed, i)
    decreases |removed|
  {
    hide RemoveAll;
    if removed != [] {
      var k := |removed| - 1;
      var rest, last := removed[..k], removed[k];
      assert removed == rest + [last];
      UninstallsIff(store, rest);
      forall i | 0 <= i < k
        ensures IsUninstalled(store, removed, i) <==> IsUninstalled(store, rest, i)
      {
        assert removed[..i] == rest[..i];
      }
      RemovedSet(store, rest, last);
      LastUninstalled(store, rest, last);
      if Uninstalls(store, rest) > 0 {
        var i :| 0 <= i < |rest| && IsUninstalled(store, rest, i);
        assert IsUninstalled(store, removed, i);
      }
      if IsUninstalled(store, removed, k) && last in rest {
        var i :| 0 <= i < |rest| && rest[i] == last;
        EarlierUninstalled(store, removed, i, k);
      }
    }
  }

  lemma LastUninstalled(store: Store, rest: seq<SetId>, last: SetId)
    ensures SendsUninstall(RemoveAll(store, rest), last) ==> IsUninstalled(store, rest + [last], |rest|)
    ensures IsUninstalled(store, rest + [last], |rest|) && last !in rest ==> SendsUninstall(RemoveAll(store, rest), last)
  {
    hide RemoveAll;
    assert (rest + [last])[..|rest|] == rest;
    RemovedSet(store, rest, last);
  }

  lemma EarlierUninstalled(store: Store, removed: seq<SetId>, i: nat, k: nat)
    requires i < k < |removed| && removed[i] == removed[k] && IsUninstalled(store, removed, k)
    ensures IsUninstalled(store, removed, i)
  {
    assert forall id | id in removed[..i] :: id in removed[..k];
  }

  /** At most one request is sent for each entry. */
  lemma {:induction false} RequestsAreFew(store: Store, removed: seq<SetId>)
    ensures Uninstalls(store, removed) <= |removed|
    decreases |removed|
  {
    hide RemoveAll;
    if removed != [] {
      RequestsAreFew(store, removed[..|removed| - 1]);
    }
  }

  lemma {:induction false} InstallsAreFew(sets: map<SetId, StickersSet>, order: seq<SetId>, removed: seq<SetId>, now: int)
    ensures Installs(sets, order, removed, now) <= |order|
    decreases |order|
  {
    hide InstallAll;
    if order != [] {
      InstallsAreFew(sets, order[..|order| - 1], removed, now);
    }
  }

  /** Install requests are sent exactly for an archived set of the order that is not to be removed. */
  lemma {:induction false} InstallsIff(sets: map<SetId, StickersSet>, order: seq<SetId>, removed: seq<SetId>, now: int)
    ensures Installs(sets, order, removed, now) > 0
       <==> exists id :: id in order && id in sets && sets[id].archived && id !in removed
    decreases |order|
  {
    hide InstallAll;
    if order != [] {
      var rest, last := order[..|order| - 1], order[|order| - 1];
      assert order == rest + [last];
      InstallsIff(sets, rest, removed, now);
      InstallKeepsOne(sets, rest, removed, now, last);
    }
  }

  /**
   * A save sends its reorder call at once, if at all, exactly if it has nothing to uninstall and nothing to take out of
   * the archive.
   */
  lemma SendsNothingElseIff(store: Store, localOrder: seq<SetId>, localRemoved: seq<SetId>, kind: Kind, now: int)
    ensures RequestsOf(store, localOrder, localRemoved, kind, now) == 0
       <==> && (forall i | 0 <= i < |localRemoved| :: !IsUninstalled(store, localRemoved, i))
            && (forall id | id in localOrder && id in store.sets && id !in localRemoved
                            && !(ClearsRecent(localRemoved) && GoesWithRecent(id)) :: !store.sets[id].archived)
  {
    hide RemoveAll, IsUninstalled;
    UninstallsIff(store, localRemoved);
    var sets := Cleared(RemoveAll(store, localRemoved).sets, kind);
    InstallsIff(sets, localOrder, localRemoved, now);
    forall id | id !in localRemoved
      ensures id in sets && sets[id].archived
         <==> id in store.sets && store.sets[id].archived && !(ClearsRecent(localRemoved) && GoesWithRecent(id))
    {
      RemovedSet(store, localRemoved, id);
    }
  }

  lemma {:induction false} SendManyAdds(s: Saves, a: nat, b: nat)
    ensures SendMany(SendMany(s, a), b) == SendMany(s, a + b)
    decreases b
  {
    if b > 0 {
      SendManyAdds(s, a, b - 1);
    }
  }

  lemma {:induction false} RecentWithoutAppend(front: seq<Recent>, back: seq<Recent>, stickers: seq<Sticker>)
    ensures RecentWithout(front + back, stickers) == RecentWithout(front, stickers) + RecentWithout(back, stickers)
  {
    if front == [] {
      assert front + back == back;
    } else {
      assert (front + back)[1..] == front[1..] + back;
      RecentWithoutAppend(front[1..], back, stickers);
    }
  }

  lemma {:induction false} OrderWithoutIsRemoveAt(order: seq<SetId>, id: SetId, index: nat)
    requires index < |order| && order[index] == id && id !in order[..index]
    ensures OrderWithout(order, id) == order[..index] + order[index + 1..]
  {
    if index > 0 {
      assert order[0] in order[..index];
      assert order[1..][..index - 1] == order[..index][1..];
      OrderWithoutIsRemoveAt(order[1..], id, index - 1);
    }
  }

  lemma {:induction false} OrderWithoutAbsent(order: seq<SetId>, id: SetId)
    requires id !in order
    ensures OrderWithout(order, id) == order
  {
    if order != [] {
      OrderWithoutAbsent(order[1..], id);
    }
  }

  class StickersApi {
    const kind: Kind
    var sets: map<SetId, StickersSet>
    var order: seq<SetId>
    var recent: seq<Recent>
    var disenableRequests: set<RequestId>
    var reorderRequestId: RequestId
    var lastRequestId: RequestId
    ghost var flights: map<RequestId, Flight>
    ghost var save: nat
    ghost var orders: map<nat, seq<SetId>>
    ghost var reorders: seq<Reordered>

    constructor (kind: Kind)
      ensures Stored() == Store(map[], [], []) && Protocol() == INITIAL && this.kind == kind
    {
      this.kind := kind;
      sets, order, recent := map[], [], [];
      disenableRequests, reorderRequestId, lastRequestId := {}, 0, 0;
      flights, save, orders, reorders := map[], 0, map[], [];
    }

    function Stored(): Store
      reads this
    {
      Store(sets, order, recent)
    }

    ghost function Protocol(): Saves
      reads this
    {
      Saves(disenableRequests, reorderRequestId, lastRequestId, flights, save, orders, reorders)
    }

    /** Cancels every request in flight for this kind. */
    method CancelRequests(localOrder: seq<SetId>)
      modifies this`disenableRequests, this`reorderRequestId, this`flights, this`save, this`orders
      ensures Protocol() == Cancel(old(Protocol()), localOrder)
    {
      var taken := disenableRequests;
      disenableRequests := {};
      var left := taken;
      while left != {}
        invariant left <= taken
        invariant flights == old(flights) - (taken - left)
        decreases left
        modifies this`flights
      {
        var requestId :| requestId in left;
        flights := flights - {requestId};
        left := left - {requestId};
        assert flights == old(flights) - (taken - left);
      }
      flights := flights - {reorderRequestId};
      reorderRequestId := 0;
      save, orders := save + 1, orders[save + 1 := localOrder];
      assert flights == old(flights) - old(disenableRequests) - {old(reorderRequestId)};
    }

    /** An uninstall or an install request. */
    method SendDisenable()
      modifies this`disenableRequests, this`lastRequestId, this`flights
      ensures Protocol() == SendOne(old(Protocol()))
    {
      lastRequestId := lastRequestId + 1;
      disenableRequests := disenableRequests + {lastRequestId};
      flights := flights[lastRequestId := Disenable(save)];
    }

    /** Erases the stickers of a removed set while going through the recent ones. */
    method ForgetRecent(stickers: seq<Sticker>)
      modifies this`recent
      ensures recent == RecentWithout(old(recent), stickers)
    {
      var i := 0;
      while i < |recent|
        invariant 0 <= i <= |recent|
        invariant recent[..i] + RecentWithout(recent[i..], stickers) == RecentWithout(old(recent), stickers)
        decreases |recent| - i
      {
        ghost var before := recent;
        if recent[i].sticker in stickers {
          recent := recent[..i] + recent[i + 1..];
          assert recent[i..] == before[i..][1..];
          assert recent[..i] == before[..i];
        } else {
          i := i + 1;
          assert recent[i..] == before[i - 1..][1..];
          assert recent[..i] == before[..i - 1] + [before[i - 1]];
        }
      }
      assert recent[i..] == [] && recent[..i] == recent;
    }

    method RemoveFromOrder(id: SetId)
      modifies this`order
      ensures order == OrderWithout(old(order), id)
    {
      var removeIndex := 0;
      while removeIndex < |order| && order[removeIndex] != id
        invariant 0 <= removeIndex <= |order|
        invariant id !in order[..removeIndex]
      {
        removeIndex := removeIndex + 1;
      }
      if removeIndex < |order| {
        OrderWithoutIsRemoveAt(order, id, removeIndex);
        order := order[..removeIndex] + order[removeIndex + 1..];
      } else {
        OrderWithoutAbsent(order, id);
      }
    }

    /** One entry of `localRemoved` */
    method RemoveSet(id: SetId)
      modifies this`sets, this`order, this`recent, this`disenableRequests, this`lastRequestId, this`flights
      ensures Stored() == RemoveOne(old(Stored()), id)
      ensures Protocol() == if SendsUninstall(old(Stored()), id) then SendOne(old(Protocol())) else old(Protocol())
    {
      if id == CLOUD_RECENT || id == CLOUD_RECENT_ATTACHED {
        sets := sets - {CLOUD_RECENT};
        sets := sets - {CLOUD_RECENT_ATTACHED};
        sets := sets - {CUSTOM};
        assert sets == old(sets) - {CLOUD_RECENT, CLOUD_RECENT_ATTACHED, CUSTOM};
        recent := [];
        return;
      }
      if id in sets {
        var removed := sets[id];
        ForgetRecent(removed.stickers);
        if !removed.archived {
          SendDisenable();
          RemoveFromOrder(id);
          if !removed.featured && !removed.special && !removed.emoji && !(removed.locked > 0) {
            sets := sets - {id};
          } else {
            sets := sets[id := removed.(installed := false, archived := false, installDate := 0)];
          }
        }
      }
    }

    method RemoveSets(localRemoved: seq<SetId>)
      modifies this`sets, this`order, this`recent, this`disenableRequests, this`lastRequestId, this`flights
      ensures Stored() == RemoveAll(old(Stored()), localRemoved)
      ensures Protocol() == SendMany(old(Protocol()), Uninstalls(old(Stored()), localRemoved))
    {
      hide SendOne, RemoveOne, SendsUninstall;
      for i := 0 to |localRemoved|
        invariant Stored() == RemoveAll(old(Stored()), localRemoved[..i])
        invariant Protocol() == SendMany(old(Protocol()), Uninstalls(old(Stored()), localRemoved[..i]))
      {
        assert localRemoved[..i + 1][..i] == localRemoved[..i];
        ghost var sends := if SendsUninstall(Stored(), localRemoved[i]) then 1 else 0;
        RemoveSet(localRemoved[i]);
        SendManyAdds(old(Protocol()), Uninstalls(old(Stored()), localRemoved[..i]), sends);
      }
      assert localRemoved[..|localRemoved|] == localRemoved;
    }

    /** The loop in front of the one that installs the sets of the order */
    method ClearInstalled()
      modifies this`sets
      ensures sets == Cleared(old(sets), kind)
    {
      var left := sets.Keys;
      while left != {}
        invariant left <= sets.Keys == old(sets).Keys
        invariant forall id | id in left :: sets[id] == old(sets)[id]
        invariant forall id | id in sets.Keys - left :: sets[id] == Cleared(old(sets), kind)[id]
        decreases left
      {
        var id :| id in left;
        if !sets[id].archived && KindOf(sets[id]) == kind {
          sets := sets[id := sets[id].(installed := false)];
        }
        left := left - {id};
      }
    }

    /** One entry of `localOrder` */
    method InstallSet(id: SetId, localRemoved: seq<SetId>, now: int)
      modifies this`sets, this`order, this`disenableRequests, this`lastRequestId, this`flights
      ensures sets == InstallOne(old(sets), id, localRemoved, now)
      ensures order == old(order) + if id in old(sets).Keys then [id] else []
      ensures Protocol() == if SendsInstall(old(sets), id, localRemoved) then SendOne(old(Protocol())) else old(Protocol())
    {
      hide SendOne;
      if id !in sets {
        return;
      }
      var set_ := sets[id];
      if set_.archived && id !in localRemoved {
        SendDisenable();
        set_ := set_.(archived := false);
      }
      order := order + [id];
      set_ := set_.(installed := true);
      if set_.installDate == 0 {
        set_ := set_.(installDate := now);
      }
      sets := sets[id := set_];
    }

    method InstallSets(localOrder: seq<SetId>, localRemoved: seq<SetId>, now: int)
      modifies this`sets, this`order, this`disenableRequests, this`lastRequestId, this`flights
      ensures sets == InstallAll(old(sets), localOrder, localRemoved, now)
      ensures order == Present(localOrder, old(sets).Keys)
      ensures Protocol() == SendMany(old(Protocol()), Installs(old(sets), localOrder, localRemoved, now))
    {
      hide SendOne, InstallOne, SendsInstall;
      order := [];
      for i := 0 to |localOrder|
        invariant sets == InstallAll(old(sets), localOrder[..i], localRemoved, now)
        invariant order == Present(localOrder[..i], old(sets).Keys)
        invariant Protocol() == SendMany(old(Protocol()), Installs(old(sets), localOrder[..i], localRemoved, now))
      {
        assert localOrder[..i + 1][..i] == localOrder[..i];
        InstallKeeps(old(sets), localOrder[..i], localRemoved, now);
        ghost var sends := if SendsInstall(sets, localOrder[i], localRemoved) then 1 else 0;
        InstallSet(localOrder[i], localRemoved, now);
        SendManyAdds(old(Protocol()), Installs(old(sets), localOrder[..i], localRemoved, now), sends);
      }
      assert localOrder[..|localOrder|] == localOrder;
    }

    /** Drops every set that has no reason to stay. */
    method Sweep()
      modifies this`sets
      ensures sets == Swept(old(sets))
    {
      var left := sets.Keys;
      while left != {}
        invariant left <= sets.Keys <= old(sets).Keys
        invariant forall id | id in sets :: sets[id] == old(sets)[id]
        invariant forall id | id in old(sets).Keys - left :: id in sets <==> Retained(old(sets)[id])
        decreases left
      {
        var id :| id in left;
        if !(sets[id].featured || sets[id].installed || sets[id].archived
             || sets[id].special || sets[id].emoji || sets[id].locked > 0) {
          sets := sets - {id};
        }
        left := left - {id};
      }
    }

    /** `stickersSaveOrder` of the save that captured `localOrder` */
    method SendOrder(localOrder: seq<SetId>, ghost captured: nat)
      requires captured in orders && orders[captured] == localOrder
      modifies this`reorderRequestId, this`lastRequestId, this`flights, this`reorders
      ensures Protocol() == SaveOrder(old(Protocol()), captured)
    {
      if |localOrder| < 2 {
        return;
      }
      lastRequestId := lastRequestId + 1;
      reorderRequestId := lastRequestId;
      flights := flights[lastRequestId := Reorder(captured)];
      reorders := reorders + [Reordered(captured, localOrder)];
    }

    /** One save: the store and the requests, both as specified. */
    method SaveStickerSets(localOrder: seq<SetId>, localRemoved: seq<SetId>, now: int)
      modifies this
      ensures Stored() == Saved(old(Stored()), localOrder, localRemoved, kind, now)
      ensures Protocol()
           == Save(old(Protocol()), localOrder, RequestsOf(old(Stored()), localOrder, localRemoved, kind, now))
    {
      hide RemoveAll, InstallAll, Present, Uninstalls, Installs, SaveOrder, SendMany;
      ghost var store, protocol := Stored(), Protocol();
      CancelRequests(localOrder);
      RemoveSets(localRemoved);
      ClearInstalled();
      assert sets.Keys == RemoveAll(store, localRemoved).sets.Keys;
      InstallSets(localOrder, localRemoved, now);
      Sweep();
      SendManyAdds(Cancel(protocol, localOrder), Uninstalls(store, localRemoved),
                   Installs(Cleared(RemoveAll(store, localRemoved).sets, kind), localOrder, localRemoved, now));
      SendManyFields(Cancel(protocol, localOrder), RequestsOf(store, localOrder, localRemoved, kind, now));
      if disenableRequests == {} {
        SendOrder(localOrder, save);
      }
    }

    /** `stickerSetDisenabled`, called by the reply or the failure of an uninstall or install request. */
    method StickerSetDisenabled(requestId: RequestId, localOrder: seq<SetId>)
      requires requestId in flights && flights[requestId].Disenable?
      requires flights[requestId].save in orders && orders[flights[requestId].save] == localOrder
      modifies this`disenableRequests, this`reorderRequestId, this`lastRequestId, this`flights, this`reorders
      ensures Protocol() == Reply(old(Protocol()), requestId)
    {
      ghost var captured := flights[requestId].save;
      flights := flights - {requestId};
      disenableRequests := disenableRequests - {requestId};
      if disenableRequests == {} {
        SendOrder(localOrder, captured);
      }
    }

    /** The reply or the failure of the reorder call. */
    method ReorderDone(requestId: RequestId)
      requires requestId in flights && flights[requestId].Reorder?
      modifies this`reorderRequestId, this`flights
      ensures Protocol() == Reply(old(Protocol()), requestId)
    {
      flights := flights - {requestId};
      reorderRequestId := 0;
    }
  }
}
