/** The requests of `ApiWrap::saveStickerSets` for one sticker type: uninstalls, installs and the reorder behind them. */
module StickerSaves {
  import opened StickerSets

  type RequestId = nat

  /** A request in flight, with the number of the save that sent it. */
  datatype Flight = Disenable(save: nat) | Reorder(save: nat)

  datatype Reordered = Reordered(save: nat, order: seq<SetId>)

  /**
   * The fields of `ApiWrap` for one type, the requests in flight, and the history: the local orders
   * that the saves captured, and the reorder calls sent.
   */
  datatype Saves = Saves(
    disenable: set<RequestId>, reorderId: RequestId, lastId: RequestId,
    flights: map<RequestId, Flight>,
    save: nat, orders: map<nat, seq<SetId>>, reorders: seq<Reordered>)

  const INITIAL := Saves({}, 0, 0, map[], 0, map[], [])

  function OrderOf(s: Saves, save: nat): seq<SetId> {
    if save in s.orders then s.orders[save] else []
  }

  /** `stickersSaveOrder` of a save */
  function SaveOrder(s: Saves, save: nat): Saves {
    if |OrderOf(s, save)| < 2 then s
    else
      s.(lastId := s.lastId + 1, reorderId := s.lastId + 1,
         flights := s.flights[s.lastId + 1 := Reorder(save)],
         reorders := s.reorders + [Reordered(save, OrderOf(s, save))])
  }

  /** The head of a save: everything still in flight for the type is cancelled. */
  function Cancel(s: Saves, localOrder: seq<SetId>): Saves {
    s.(disenable := {}, reorderId := 0,
       flights := s.flights - s.disenable - {s.reorderId},
       save := s.save + 1, orders := s.orders[s.save + 1 := localOrder])
  }

  /** One uninstall or install request of the running save. */
  function SendOne(s: Saves): Saves {
    s.(lastId := s.lastId + 1, disenable := s.disenable + {s.lastId + 1},
       flights := s.flights[s.lastId + 1 := Disenable(s.save)])
  }

  function SendMany(s: Saves, count: nat): Saves
    decreases count
  {
    if count == 0 then s else SendOne(SendMany(s, count - 1))
  }

  /** A save that sends `count` uninstalls and installs. */
  function Save(s: Saves, localOrder: seq<SetId>, count: nat): Saves {
    var sent := SendMany(Cancel(s, localOrder), count);
    if sent.disenable == {} then SaveOrder(sent, sent.save) else sent
  }

  /** The reply or the failure of a request. */
  function Reply(s: Saves, r: RequestId): Saves
    requires r in s.flights
  {
    var landed := s.(flights := s.flights - {r});
    match s.flights[r]
    case Disenable(save) =>
      var left := landed.(disenable := s.disenable - {r});
      if left.disenable == {} then SaveOrder(left, save) else left
    case Reorder(_) => landed.(reorderId := 0)
  }

  datatype Event = SaveSets(localOrder: seq<SetId>, count: nat) | Answer(r: RequestId)

  predicate Enabled(s: Saves, e: Event) { e.Answer? ==> e.r in s.flights }

  function Step(s: Saves, e: Event): Saves
    requires Enabled(s, e)
  {
    match e
    case SaveSets(localOrder, count) => Save(s, localOrder, count)
    case Answer(r) => Reply(s, r)
  }

  /** Requests that were cancelled never call back, so a run has no such reply. */
  predicate Enableds(s: Saves, run: seq<Event>)
    decreases |run|
  {
    run == [] || (Enabled(s, run[0]) && Enableds(Step(s, run[0]), run[1..]))
  }

  function Run(s: Saves, run: seq<Event>): Saves
    requires Enableds(s, run)
    decreases |run|
  {
    if run == [] then s else Run(Step(s, run[0]), run[1..])
  }

  // ----- The invariant -----

  ghost predicate ReorderSent(s: Saves) { s.reorders != [] && s.reorders[|s.reorders| - 1].save == s.save }

  /**
   * Only requests of the latest save are in flight, the reorder call is never beside the others, and its id is known as
   * long as it is in flight.
   */
  ghost predicate FlightsInv(s: Saves) {
    && (forall r | r in s.flights ::
          && 0 < r <= s.lastId && s.flights[r].save == s.save
          && (s.flights[r].Disenable? <==> r in s.disenable)
          && (s.flights[r].Reorder? ==> r == s.reorderId && s.disenable == {}))
    && (forall r | r in s.disenable :: r in s.flights)
    && (s.reorderId != 0 ==> s.reorderId in s.flights && s.flights[s.reorderId] == Reorder(s.save))
  }

  /** The reorder calls belong to different saves, oldest first, each with the order its save captured. */
  ghost predicate HistoryInv(s: Saves) {
    && (forall i | 0 <= i < |s.reorders| ::
          s.reorders[i].save <= s.save && |s.reorders[i].order| >= 2
          && s.reorders[i].order == OrderOf(s, s.reorders[i].save))
    && (forall i, j | 0 <= i < j < |s.reorders| :: s.reorders[i].save < s.reorders[j].save)
  }

  /** The latest save has sent its reorder call exactly when all its other requests were answered. */
  ghost predicate Inv(s: Saves) {
    && FlightsInv(s) && HistoryInv(s)
    && (s.save > 0 ==> s.save in s.orders)
    && (|OrderOf(s, s.save)| >= 2 ==> (ReorderSent(s) <==> s.disenable == {}))
  }

  lemma SaveOrderKeepsInv(s: Saves)
    requires s.disenable == {} && s.flights == map[] && s.reorderId == 0 && HistoryInv(s)
    requires |OrderOf(s, s.save)| >= 2 ==> !ReorderSent(s)
    requires s.save > 0 ==> s.save in s.orders
    ensures Inv(SaveOrder(s, s.save))
  {}

  lemma {:induction false} SendManyFields(s: Saves, count: nat)
    ensures var s' := SendMany(s, count);
            && s' == s.(disenable := s'.disenable, flights := s'.flights, lastId := s.lastId + count)
            && (forall r :: r in s'.disenable <==> r in s.disenable || s.lastId < r <= s.lastId + count)
            && (forall r :: r in s'.flights <==> r in s.flights || s.lastId < r <= s.lastId + count)
            && (forall r | r in s'.flights ::
                  s'.flights[r] == if s.lastId < r <= s.lastId + count then Disenable(s.save) else s.flights[r])
    decreases count
  {
    if count > 0 {
      SendManyFields(s, count - 1);
    }
  }

  lemma SaveKeepsInv(s: Saves, localOrder: seq<SetId>, count: nat)
    requires Inv(s)
    ensures Inv(Save(s, localOrder, count))
  {
    var cancelled := Cancel(s, localOrder);
    assert cancelled.flights == map[];
    SendManyFields(cancelled, count);
    var sent := SendMany(cancelled, count);
    if sent.disenable == {} {
      SaveOrderKeepsInv(sent);
    } else if count == 0 {
      assert false;
    } else {
      assert sent.lastId in sent.disenable;
    }
  }

  lemma ReplyKeepsInv(s: Saves, r: RequestId)
    requires Inv(s) && r in s.flights
    ensures Inv(Reply(s, r))
  {
    if s.flights[r].Disenable? {
      var left := s.(flights := s.flights - {r}, disenable := s.disenable - {r});
      if left.disenable == {} {
        assert left.flights == map[];
        SaveOrderKeepsInv(left);
      }
    }
  }

  lemma StepKeepsInv(s: Saves, e: Event)
    requires Inv(s) && Enabled(s, e)
    ensures Inv(Step(s, e))
  {
    hide Inv, Save, Reply;
    match e
    case SaveSets(localOrder, count) => SaveKeepsInv(s, localOrder, count);
    case Answer(r) => ReplyKeepsInv(s, r);
  }

  lemma {:induction false} RunKeepsInv(s: Saves, run: seq<Event>)
    requires Inv(s) && Enableds(s, run)
    ensures Inv(Run(s, run))
    decreases |run|
  {
    hide Inv, Step;
    if run != [] {
      StepKeepsInv(s, run[0]);
      RunKeepsInv(Step(s, run[0]), run[1..]);
    }
  }

  // ----- What a reply does -----

  /** A reply lands; the last one of a save with two sets or more sends the reorder call with the captured order. */
  lemma ReplyLands(s: Saves, r: RequestId)
    requires Inv(s) && r in s.flights
    ensures var t, order := Reply(s, r), OrderOf(s, s.save);
            && r !in t.flights && r !in t.disenable
            && (s.flights[r].Reorder? ==> t == s.(flights := map[], reorderId := 0))
            && (s.flights[r].Disenable? && s.disenable != {r} ==>
                  t == s.(flights := s.flights - {r}, disenable := s.disenable - {r}))
            && (s.flights[r].Disenable? && s.disenable == {r} ==>
                  if |order| < 2 then t.flights == map[] && t.reorders == s.reorders
                  else
                    && t.flights == map[t.reorderId := Reorder(s.save)]
                    && t.reorders == s.reorders + [Reordered(s.save, order)])
  {
    if s.flights[r].Reorder? {
      assert s.flights - {r} == map[];
    } else if s.disenable == {r} {
      assert s.flights - {r} == map[];
    } else {
      assert s.disenable - {r} == {} ==> s.disenable == {r};
    }
  }

  // ----- What the invariant means for the reorder call -----

  /**
   * A step sends at most one reorder call: for the latest save, with nothing else of it left in flight,
   * and with the order that this save was given.
   */
  lemma StepSends(s: Saves, e: Event)
    requires Inv(s) && Enabled(s, e)
    ensures var s' := Step(s, e);
            || s'.reorders == s.reorders
            || (s'.disenable == {} && s'.flights.Values == {Reorder(s'.save)}
                && s'.reorders == s.reorders + [Reordered(s'.save, OrderOf(s', s'.save))])
    ensures var s' := Step(s, e);
            s'.save == s.save + (if e.SaveSets? then 1 else 0)
  {
    match e
    case SaveSets(localOrder, count) =>
      var cancelled := Cancel(s, localOrder);
      assert cancelled.flights == map[];
      SendManyFields(cancelled, count);
      var sent := SendMany(cancelled, count);
      if sent.disenable == {} {
        assert count == 0 by {
          assert count > 0 ==> sent.lastId in sent.disenable;
        }
        OnlyReorder(sent);
      }
    case Answer(r) =>
      if s.flights[r].Disenable? {
        var left := s.(flights := s.flights - {r}, disenable := s.disenable - {r});
        if left.disenable == {} {
          assert left.flights == map[];
          OnlyReorder(left);
        }
      }
  }

  lemma OnlyReorder(s: Saves)
    requires s.flights == map[]
    ensures |OrderOf(s, s.save)| >= 2 ==> SaveOrder(s, s.save).flights.Values == {Reorder(s.save)}
  {
    var flights := SaveOrder(s, s.save).flights;
    if |OrderOf(s, s.save)| >= 2 {
      assert flights[s.lastId + 1] == Reorder(s.save);
    }
  }

  /** Once a later save has started, the reorder call of an earlier one is never sent any more. */
  lemma {:induction false} LaterReordersAreOfLaterSaves(s: Saves, run: seq<Event>)
    requires Inv(s) && Enableds(s, run)
    ensures var s' := Run(s, run);
            && s.reorders <= s'.reorders && s.save <= s'.save
            && forall i | |s.reorders| <= i < |s'.reorders| :: s'.reorders[i].save >= s.save
    decreases |run|
  {
    hide Inv, Step;
    if run != [] {
      StepSends(s, run[0]);
      StepKeepsInv(s, run[0]);
      LaterReordersAreOfLaterSaves(Step(s, run[0]), run[1..]);
    }
  }

  /** From the start: when nothing is in flight, the latest save has its reorder call sent exactly once, unless too short. */
  lemma QuietMeansReordered(run: seq<Event>)
    requires Enableds(INITIAL, run)
    ensures var s := Run(INITIAL, run);
            && (forall i, j | 0 <= i < j < |s.reorders| :: s.reorders[i].save < s.reorders[j].save)
            && (s.save > 0 ==> s.save in s.orders)
            && (s.flights == map[] && s.save > 0
                ==> (|s.orders[s.save]| >= 2
                     <==> s.reorders != [] && s.reorders[|s.reorders| - 1] == Reordered(s.save, s.orders[s.save])))
  {
    RunKeepsInv(INITIAL, run);
  }
}
