/** `ApiWrap::saveStickerSets`: what one save does to the stored sets, their order and the recent stickers. */
module StickerSets {

  type SetId = nat
  type Sticker = nat

  const CUSTOM: SetId := 0xFFFF_FFFF_FFFF_FFFF
  const CLOUD_RECENT: SetId := 0xFFFF_FFFF_FFFF_FFFC
  const CLOUD_RECENT_ATTACHED: SetId := 0xFFFF_FFFF_FFFF_FFF9

  datatype Kind = Stickers | Masks | Emoji

  /** The flags and fields of a `StickersSet` that a save reads or writes. */
  datatype StickersSet = StickersSet(
    installed: bool, archived: bool, masks: bool, featured: bool, special: bool, emoji: bool,
    locked: int, installDate: int, stickers: seq<Sticker>)

  datatype Recent = Recent(sticker: Sticker, rating: int)

  datatype Store = Store(sets: map<SetId, StickersSet>, order: seq<SetId>, recent: seq<Recent>)

  function KindOf(set_: StickersSet): Kind {
    if set_.emoji then Emoji else if set_.masks then Masks else Stickers
  }

  predicate CloudRecent(id: SetId) { id == CLOUD_RECENT || id == CLOUD_RECENT_ATTACHED }

  // ----- Removing -----

  function RecentWithout(recent: seq<Recent>, stickers: seq<Sticker>): seq<Recent> {
    if recent == [] then []
    else (if recent[0].sticker in stickers then [] else [recent[0]]) + RecentWithout(recent[1..], stickers)
  }

  /** `indexOf` and `removeAt` */
  function OrderWithout(order: seq<SetId>, id: SetId): seq<SetId> {
    if order == [] then []
    else if order[0] == id then order[1..]
    else [order[0]] + OrderWithout(order[1..], id)
  }

  /** A set that is not installed any more but has another reason to stay. */
  predicate KeptWhenRemoved(s: StickersSet) { s.featured || s.special || s.emoji || s.locked > 0 }

  function RemoveOne(store: Store, id: SetId): Store {
    if CloudRecent(id) then
      store.(sets := store.sets - {CLOUD_RECENT, CLOUD_RECENT_ATTACHED, CUSTOM}, recent := [])
    else if id !in store.sets then store
    else
      var s := store.sets[id];
      var shorter := store.(recent := RecentWithout(store.recent, s.stickers));
      if s.archived then shorter
      else
        shorter.(order := OrderWithout(store.order, id),
                 sets := if KeptWhenRemoved(s)
                         then store.sets[id := s.(installed := false, archived := false, installDate := 0)]
                         else store.sets - {id})
  }

  /** An uninstall request goes with every removal of a stored set that is not archived. */
  predicate SendsUninstall(store: Store, id: SetId) {
    !CloudRecent(id) && id in store.sets && !store.sets[id].archived
  }

  function RemoveAll(store: Store, removed: seq<SetId>): Store
    decreases |removed|
  {
    if removed == [] then store
    else RemoveOne(RemoveAll(store, removed[..|removed| - 1]), removed[|removed| - 1])
  }

  // ----- Installing -----

  /** No set of the kind counts as installed any more, apart from archived ones. */
  function Cleared(sets: map<SetId, StickersSet>, kind: Kind): map<SetId, StickersSet> {
    map id | id in sets ::
      if !sets[id].archived && KindOf(sets[id]) == kind then sets[id].(installed := false) else sets[id]
  }

  predicate SendsInstall(sets: map<SetId, StickersSet>, id: SetId, removed: seq<SetId>) {
    id in sets && sets[id].archived && id !in removed
  }

  function InstallOne(sets: map<SetId, StickersSet>, id: SetId, removed: seq<SetId>, now: int): map<SetId, StickersSet> {
    if id !in sets then sets
    else
      var s := sets[id];
      sets[id := s.(archived := s.archived && id in removed,
                    installed := true,
                    installDate := if s.installDate == 0 then now else s.installDate)]
  }

  function InstallAll(sets: map<SetId, StickersSet>, order: seq<SetId>, removed: seq<SetId>, now: int)
    : map<SetId, StickersSet>
    decreases |order|
  {
    if order == [] then sets
    else InstallOne(InstallAll(sets, order[..|order| - 1], removed, now), order[|order| - 1], removed, now)
  }

  function Present(order: seq<SetId>, ids: set<SetId>): seq<SetId>
    decreases |order|
  {
    if order == [] then []
    else Present(order[..|order| - 1], ids) + if order[|order| - 1] in ids then [order[|order| - 1]] else []
  }

  predicate Retained(s: StickersSet) {
    s.featured || s.installed || s.archived || s.special || s.emoji || s.locked > 0
  }

  function Swept(sets: map<SetId, StickersSet>): map<SetId, StickersSet> {
    map id | id in sets && Retained(sets[id]) :: sets[id]
  }

  /** The store after a save. */
  function Saved(store: Store, localOrder: seq<SetId>, localRemoved: seq<SetId>, kind: Kind, now: int): Store {
    var removed := RemoveAll(store, localRemoved);
    Store(Swept(InstallAll(Cleared(removed.sets, kind), localOrder, localRemoved, now)),
          Present(localOrder, removed.sets.Keys),
          removed.recent)
  }

  // ----- What a save means -----

  lemma InstallKeeps(sets: map<SetId, StickersSet>, order: seq<SetId>, removed: seq<SetId>, now: int)
    ensures var installed := InstallAll(sets, order, removed, now);
            && installed.Keys == sets.Keys
            && forall id | id in sets ::
                 if id in order
                 then installed[id] == sets[id].(
                        installed := true, archived := sets[id].archived && id in removed,
                        installDate := if sets[id].installDate == 0 then now else sets[id].installDate)
                 else installed[id] == sets[id]
  {
    hide InstallAll;
    var installed := InstallAll(sets, order, removed, now);
    forall id
      ensures id in installed <==> id in sets
    {
      InstallKeepsOne(sets, order, removed, now, id);
    }
    forall id | id in sets
      ensures if id in order
              then installed[id] == sets[id].(
                     installed := true, archived := sets[id].archived && id in removed,
                     installDate := if sets[id].installDate == 0 then now else sets[id].installDate)
              else installed[id] == sets[id]
    {
      InstallKeepsOne(sets, order, removed, now, id);
    }
  }

  lemma {:induction false} InstallKeepsOne(sets: map<SetId, StickersSet>, order: seq<SetId>, removed: seq<SetId>,
                                           now: int, id: SetId)
    ensures var installed := InstallAll(sets, order, removed, now);
            && (id in installed <==> id in sets)
            && (id in sets ==>
                  if id in order
                  then installed[id] == sets[id].(
                         installed := true, archived := sets[id].archived && id in removed,
                         installDate := if sets[id].installDate == 0 then now else sets[id].installDate)
                  else installed[id] == sets[id])
    decreases |order|
  {
    if order != [] {
      var rest, last := order[..|order| - 1], order[|order| - 1];
      assert order == rest + [last];
      InstallKeepsOne(sets, rest, removed, now, id);
    }
  }

  lemma {:induction false} PresentMembers(order: seq<SetId>, ids: set<SetId>)
    ensures forall id :: id in Present(order, ids) <==> id in order && id in ids
    decreases |order|
  {
    if order != [] {
      assert order == order[..|order| - 1] + [order[|order| - 1]];
      PresentMembers(order[..|order| - 1], ids);
    }
  }

  /** The positions of a list that a second list comes from, in order */
  ghost predicate Picks(positions: seq<nat>, from: seq<SetId>, picked: seq<SetId>) {
    && |positions| == |picked|
    && (forall i | 0 <= i < |positions| :: positions[i] < |from| && from[positions[i]] == picked[i])
    && (forall i, j | 0 <= i < j < |positions| :: positions[i] < positions[j])
  }

  lemma {:induction false} PresentPicks(order: seq<SetId>, ids: set<SetId>) returns (positions: seq<nat>)
    ensures Picks(positions, order, Present(order, ids))
    decreases |order|
  {
    hide Picks;
    positions := [];
    if order == [] {
      NothingPicked();
    } else {
      var front, last := order[..|order| - 1], order[|order| - 1];
      positions := PresentPicks(front, ids);
      assert order == front + [last];
      PicksOneMore(positions, front, Present(front, ids), last);
      if last in ids {
        positions := positions + [|front|];
      } else {
        assert Present(order, ids) == Present(front, ids);
      }
    }
  }

  lemma NothingPicked()
    ensures Picks([], [], [])
  {}

  lemma PicksOneMore(positions: seq<nat>, from: seq<SetId>, picked: seq<SetId>, last: SetId)
    requires Picks(positions, from, picked)
    ensures Picks(positions, from + [last], picked) && Picks(positions + [|from|], from + [last], picked + [last])
  {}

  lemma {:induction false} PresentCounts(order: seq<SetId>, ids: set<SetId>, id: SetId)
    ensures multiset(Present(order, ids))[id] == if id in ids then multiset(order)[id] else 0
    decreases |order|
  {
    if order != [] {
      PresentCounts(order[..|order| - 1], ids, id);
      assert order == order[..|order| - 1] + [order[|order| - 1]];
    }
  }

  lemma {:induction false} PresentIsAll(order: seq<SetId>, ids: set<SetId>)
    requires forall id | id in order :: id in ids
    ensures Present(order, ids) == order
    decreases |order|
  {
    if order != [] {
      PresentIsAll(order[..|order| - 1], ids);
      assert order == order[..|order| - 1] + [order[|order| - 1]];
    }
  }

  /**
   * The stored order, without reference to how it is built: it comes from increasing positions of the local order, a
   * set that is stored occurs in both as often, and another one not at all. If nothing of the local order is gone, the
   * stored order is the local one.
   */
  lemma SavedOrderIsLocalOrder(store: Store, localOrder: seq<SetId>, localRemoved: seq<SetId>, kind: Kind, now: int)
    returns (positions: seq<nat>)
    ensures var after := Saved(store, localOrder, localRemoved, kind, now);
            && Picks(positions, localOrder, after.order)
            && (forall id :: multiset(after.order)[id] == if id in after.sets then multiset(localOrder)[id] else 0)
            && ((forall id | id in localOrder :: id in after.sets) ==> after.order == localOrder)
  {
    var removed := RemoveAll(store, localRemoved);
    var after := Saved(store, localOrder, localRemoved, kind, now);
    positions := PresentPicks(localOrder, removed.sets.Keys);
    SavedOrder(store, localOrder, localRemoved, kind, now);
    forall id
      ensures multiset(after.order)[id] == if id in after.sets then multiset(localOrder)[id] else 0
    {
      PresentCounts(localOrder, removed.sets.Keys, id);
    }
    if forall id | id in localOrder :: id in after.sets {
      forall id | id in localOrder
        ensures id in removed.sets.Keys
      {
        assert id in after.order;
        PresentMembers(localOrder, removed.sets.Keys);
      }
      PresentIsAll(localOrder, removed.sets.Keys);
    }
  }

  /** The stored order: exactly the local order without the sets that are gone, each stored and installed. */
  lemma SavedOrder(store: Store, localOrder: seq<SetId>, localRemoved: seq<SetId>, kind: Kind, now: int)
    ensures var after := Saved(store, localOrder, localRemoved, kind, now);
            && after.order == Present(localOrder, RemoveAll(store, localRemoved).sets.Keys)
            && (forall id :: id in after.order <==> id in localOrder && id in after.sets)
            && (forall id | id in after.order :: id in after.sets && after.sets[id].installed)
  {
    var removed := RemoveAll(store, localRemoved);
    PresentMembers(localOrder, removed.sets.Keys);
    InstallKeeps(Cleared(removed.sets, kind), localOrder, localRemoved, now);
  }

  // ----- One set at a time -----

  /** The flags that put a set among those of a kind */
  predicate OfKind(s: StickersSet, kind: Kind) {
    && (kind == Emoji ==> s.emoji)
    && (kind == Masks ==> s.masks && !s.emoji)
    && (kind == Stickers ==> !s.masks && !s.emoji)
  }

  predicate ClearsRecent(removed: seq<SetId>) { CLOUD_RECENT in removed || CLOUD_RECENT_ATTACHED in removed }

  /** A set that goes together with the recent stickers */
  predicate GoesWithRecent(id: SetId) { id == CLOUD_RECENT || id == CLOUD_RECENT_ATTACHED || id == CUSTOM }

  predicate HasReason(s: StickersSet) { s.featured || s.special || s.emoji || s.locked > 0 }

  /** What the removals make of one set, whatever their order and however often they name it */
  lemma {:induction false} RemovedSet(store: Store, removed: seq<SetId>, id: SetId)
    ensures var after := RemoveAll(store, removed).sets;
            if id !in store.sets || (ClearsRecent(removed) && GoesWithRecent(id)) then id !in after
            else
              var s := store.sets[id];
              if id !in removed || s.archived then id in after && after[id] == s
              else if !HasReason(s) then id !in after
              else id in after && after[id] == s.(installed := false, archived := false, installDate := 0)
    decreases |removed|
  {
    hide RecentWithout, OrderWithout;
    if removed != [] {
      var rest, last := removed[..|removed| - 1], removed[|removed| - 1];
      assert removed == rest + [last];
      RemovedSet(store, rest, id);
    }
  }

  /**
   * What a save makes of one set. A removed set that is not archived is reset, and goes without another reason to stay.
   * A set of the order is installed and not archived any more unless it was to be removed; the others keep their flags,
   * apart from those of the kind that are not archived, which are not installed. What has no flag to keep it goes.
   */
  lemma SavedSet(store: Store, localOrder: seq<SetId>, localRemoved: seq<SetId>, kind: Kind, now: int, id: SetId)
    ensures var after := Saved(store, localOrder, localRemoved, kind, now).sets;
            if id !in store.sets || (ClearsRecent(localRemoved) && GoesWithRecent(id)) then id !in after
            else
              var s, inOrder, removed := store.sets[id], id in localOrder, id in localRemoved;
              var reset := removed && !s.archived;
              var installed := inOrder || (s.installed && !reset && (s.archived || !OfKind(s, kind)));
              var archived := s.archived && (removed || !inOrder);
              && (id in after <==> HasReason(s) || (!reset && (installed || archived)))
              && (id in after ==>
                    after[id] == s.(
                      installed := installed, archived := archived,
                      installDate := if inOrder && (reset || s.installDate == 0) then now
                                     else if reset then 0 else s.installDate))
  {
    hide RemoveAll, InstallAll, Present;
    RemovedSet(store, localRemoved, id);
    var removed := RemoveAll(store, localRemoved).sets;
    InstallKeepsOne(Cleared(removed, kind), localOrder, localRemoved, now, id);
  }

  /** The removal of a stored set that is not archived takes its first place out of the order; no other removal does. */
  lemma RemovedPlace(store: Store, id: SetId, i: nat)
    requires i <= |store.order| && (i < |store.order| ==> store.order[i] == id)
    requires forall k | 0 <= k < i :: store.order[k] != id
    ensures RemoveOne(store, id).order
         == if id in store.sets && !store.sets[id].archived && id != CLOUD_RECENT && id != CLOUD_RECENT_ATTACHED
               && i < |store.order|
            then store.order[..i] + store.order[i + 1..] else store.order
  {
    hide RecentWithout;
    FirstPlace(store.order, id, i);
  }

  lemma {:induction false} FirstPlace(order: seq<SetId>, id: SetId, i: nat)
    requires i <= |order| && (i < |order| ==> order[i] == id) && forall k | 0 <= k < i :: order[k] != id
    ensures OrderWithout(order, id) == if i < |order| then order[..i] + order[i + 1..] else order
  {
    if i > 0 {
      FirstPlace(order[1..], id, i - 1);
      assert order == [order[0]] + order[1..];
    }
  }

  /** Which recent stickers are left: none if the recent ones are cleared, and otherwise those of no removed stored set */
  lemma {:induction false} RecentAfter(store: Store, removed: seq<SetId>, r: Recent)
    ensures r in RemoveAll(store, removed).recent
       <==> && r in store.recent && !ClearsRecent(removed)
            && forall id | id in removed && id in store.sets :: r.sticker !in store.sets[id].stickers
    decreases |removed|
  {
    hide OrderWithout;
    if removed != [] {
      var rest, last := removed[..|removed| - 1], removed[|removed| - 1];
      assert removed == rest + [last];
      RecentAfter(store, rest, r);
      RemovedStickers(store, rest, last);
      if last in RemoveAll(store, rest).sets {
        RecentWithoutIs(RemoveAll(store, rest).recent, RemoveAll(store, rest).sets[last].stickers, r);
      }
    }
  }

  /** The stickers of a stored set are the same as long as it is there; when it is gone, it was removed before. */
  lemma RemovedStickers(store: Store, removed: seq<SetId>, id: SetId)
    ensures var after := RemoveAll(store, removed).sets;
            && (id in after ==> id in store.sets && after[id].stickers == store.sets[id].stickers)
            && (id in store.sets && id !in after ==> id in removed || ClearsRecent(removed))
  {
    RemovedSet(store, removed, id);
  }

  lemma {:induction false} RecentWithoutIs(recent: seq<Recent>, stickers: seq<Sticker>, r: Recent)
    ensures r in RecentWithout(recent, stickers) <==> r in recent && r.sticker !in stickers
  {
    if recent != [] {
      RecentWithoutIs(recent[1..], stickers, r);
      assert recent == [recent[0]] + recent[1..];
    }
  }

  /** Among the remaining sets of the kind that are not archived, the installed ones are those in the order. */
  lemma InstalledIffInOrder(store: Store, localOrder: seq<SetId>, localRemoved: seq<SetId>, kind: Kind, now: int,
                            id: SetId)
    requires var after := Saved(store, localOrder, localRemoved, kind, now);
             id in after.sets && !after.sets[id].archived && KindOf(after.sets[id]) == kind
    ensures var after := Saved(store, localOrder, localRemoved, kind, now);
            after.sets[id].installed <==> id in after.order
  {
    var removed := RemoveAll(store, localRemoved);
    PresentMembers(localOrder, removed.sets.Keys);
    InstallKeeps(Cleared(removed.sets, kind), localOrder, localRemoved, now);
  }

  /** Every remaining set has a reason to remain, and a set of another kind outside the order is untouched. */
  lemma RemainingSets(store: Store, localOrder: seq<SetId>, localRemoved: seq<SetId>, kind: Kind, now: int, id: SetId)
    requires id in Saved(store, localOrder, localRemoved, kind, now).sets
    ensures var after := Saved(store, localOrder, localRemoved, kind, now);
            && Retained(after.sets[id])
            && (id !in localOrder && id !in localRemoved && KindOf(after.sets[id]) != kind
                ==> id in store.sets && after.sets[id] == store.sets[id])
  {
    var removed := RemoveAll(store, localRemoved);
    InstallKeeps(Cleared(removed.sets, kind), localOrder, localRemoved, now);
    if id !in localRemoved {
      OthersStay(store, localRemoved, id);
    }
  }

  lemma {:induction false} OthersStay(store: Store, removed: seq<SetId>, id: SetId)
    requires id !in removed && id in RemoveAll(store, removed).sets
    ensures id in store.sets && RemoveAll(store, removed).sets[id] == store.sets[id]
    decreases |removed|
  {
    hide RecentWithout, OrderWithout;
    if removed != [] {
      var rest, last := removed[..|removed| - 1], removed[|removed| - 1];
      assert removed == rest + [last];
      OthersStay(store, rest, id);
    }
  }

  /** A removed set that was not archived is gone, unless another reason keeps it; then it is not installed. */
  lemma {:induction false} RemovedState(store: Store, removed: seq<SetId>, id: SetId)
    requires id in removed && id in store.sets && !store.sets[id].archived && !CloudRecent(id)
    ensures var after := RemoveAll(store, removed);
            id in after.sets ==>
              && KeptWhenRemoved(store.sets[id]) && KeptWhenRemoved(after.sets[id])
              && !after.sets[id].installed && !after.sets[id].archived
    decreases |removed|
  {
    hide RecentWithout, OrderWithout;
    var rest, last := removed[..|removed| - 1], removed[|removed| - 1];
    assert removed == rest + [last];
    if id in rest {
      RemovedState(store, rest, id);
    } else if id in RemoveAll(store, rest).sets {
      OthersStay(store, rest, id);
    }
  }

  /** A set that the user removed and did not put back into the order is not installed after the save. */
  lemma RemovedIsUninstalled(store: Store, localOrder: seq<SetId>, localRemoved: seq<SetId>, kind: Kind, now: int,
                             id: SetId)
    requires id in localRemoved && id !in localOrder && !CloudRecent(id)
    requires id in store.sets && !store.sets[id].archived
    ensures var after := Saved(store, localOrder, localRemoved, kind, now);
            && id !in after.order
            && (id in after.sets ==> !after.sets[id].installed && KeptWhenRemoved(store.sets[id]))
  {
    var removed := RemoveAll(store, localRemoved);
    PresentMembers(localOrder, removed.sets.Keys);
    InstallKeeps(Cleared(removed.sets, kind), localOrder, localRemoved, now);
    RemovedState(store, localRemoved, id);
  }

  lemma {:induction false} RecentShrinks(recent: seq<Recent>, stickers: seq<Sticker>)
    ensures forall r :: r in RecentWithout(recent, stickers) <==> r in recent && r.sticker !in stickers
  {
    if recent != [] {
      RecentShrinks(recent[1..], stickers);
    }
  }

  /** No sticker of a removed set is left among the recent ones. */
  lemma {:induction false} NoRemovedStickerIsRecent(store: Store, removed: seq<SetId>, id: SetId)
    requires id in store.sets && id in removed
    ensures forall r | r in RemoveAll(store, removed).recent :: r.sticker !in store.sets[id].stickers
    decreases |removed|
  {
    var rest, last := removed[..|removed| - 1], removed[|removed| - 1];
    assert removed == rest + [last];
    var before := RemoveAll(store, rest);
    if last in before.sets {
      RecentShrinks(before.recent, before.sets[last].stickers);
    }
    if id in rest {
      NoRemovedStickerIsRecent(store, rest, id);
    } else {
      StaysUntilRemoved(store, rest, id);
    }
  }

  /** A set leaves before its own turn only when the recent stickers are cleared as a whole. */
  lemma {:induction false} StaysUntilRemoved(store: Store, removed: seq<SetId>, id: SetId)
    requires id in store.sets && id !in removed
    ensures var after := RemoveAll(store, removed);
            after.recent == [] || (id in after.sets && after.sets[id].stickers == store.sets[id].stickers)
    decreases |removed|
  {
    if removed != [] {
      var rest, last := removed[..|removed| - 1], removed[|removed| - 1];
      assert removed == rest + [last];
      StaysUntilRemoved(store, rest, id);
    }
  }
}
