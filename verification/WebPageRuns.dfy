/** Runs of the web-page batching: what a request was sent for, and what its reply removes. */
module WebPageRuns {
  import opened WebPages
  import opened Options

  /**
   * The pending map, all requests sent so far, for each one without a reply the pages it was sent for, without those
   * that were cleared since, and the requests that failed.
   */
  datatype Batching = Batching(
    pending: seq<Entry>, sent: set<RequestId>, waiting: map<RequestId, set<Page>>, failed: set<RequestId>)

  const START := Batching([], {}, map[], {})

  /** The calls, with what their methods promise about the pending map */
  datatype Event =
    | Delay(page: Page)
    | Clear(page: Page, result: seq<Entry>)
    | ClearAll
    | Resolve(w: World, requests: map<Option<nat>, RequestId>, result: seq<Entry>)
    | Reply(requestId: RequestId)
    | Fail(requestId: RequestId)

  predicate IsPending(pending: seq<Entry>, page: Page) { exists e :: e in pending && e.page == page }

  ghost predicate Enabled(b: Batching, e: Event) {
    match e
    case Clear(page, result) =>
      Distinct(result) && forall entry :: entry in result <==> entry in b.pending && entry.page != page
    case Resolve(w, requests, result) =>
      && Direct(w, b.pending, requests, result)
      && (forall entry | entry in b.pending && Due(w, entry) :: w.items[entry.page].channel in requests)
      && (forall g | g in requests :: requests[g] > 0 && requests[g] !in b.sent)
      && (forall g, h | g in requests && h in requests && g != h :: requests[g] != requests[h])
    case Reply(requestId) => requestId in b.waiting && requestId !in b.failed
    case Fail(requestId) => requestId in b.waiting && requestId !in b.failed
    case _ => true
  }

  /** The pages a request is sent for */
  function AskedFor(w: World, pending: seq<Entry>, group: Option<nat>): set<Page> {
    set e | e in pending && Due(w, e) && w.items[e.page].channel == group :: e.page
  }

  ghost function GroupOf(requests: map<Option<nat>, RequestId>, requestId: RequestId): (group: Option<nat>)
    requires requestId in requests.Values
    ensures group in requests && requests[group] == requestId
  {
    var group :| group in requests && requests[group] == requestId;
    group
  }

  ghost function Step(b: Batching, e: Event): Batching
    requires Enabled(b, e)
  {
    match e
    case Delay(page) => if IsPending(b.pending, page) then b else b.(pending := b.pending + [Entry(page, 0)])
    case Clear(page, result) =>
      b.(pending := result, waiting := map r | r in b.waiting :: b.waiting[r] - {page})
    case ClearAll => b.(pending := [], waiting := map r | r in b.waiting :: {})
    case Resolve(w, requests, result) =>
      b.(pending := result, sent := b.sent + requests.Values,
         waiting := b.waiting + map r | r in requests.Values :: AskedFor(w, b.pending, GroupOf(requests, r)))
    case Reply(requestId) =>
      b.(pending := Remaining(b.pending, requestId), waiting := b.waiting - {requestId})
    // The requests have no fail handler.
    case Fail(requestId) => b.(failed := b.failed + {requestId})
  }

  // ----- The invariant -----

  /**
   * A request without a reply is recorded in exactly the entries of the pages it was sent for and that were not
   * cleared.
   */
  ghost predicate BatchOk(b: Batching, r: RequestId) {
    && (r in b.waiting ==> r > 0 && r in b.sent && PagesOf(b.pending, r) == b.waiting[r])
    && (r in b.failed ==> r in b.waiting)
  }

  ghost predicate EntryOk(b: Batching, e: Entry) {
    e in b.pending ==> e.requestId >= 0 && (e.requestId > 0 ==> e.requestId in b.waiting)
  }

  ghost predicate Inv(b: Batching) {
    Distinct(b.pending) && (forall e :: EntryOk(b, e)) && forall r :: BatchOk(b, r)
  }

  lemma DelayKeepsInv(b: Batching, page: Page)
    requires Inv(b)
    ensures Inv(Step(b, Delay(page)))
  {
    var t := Step(b, Delay(page));
    if !IsPending(b.pending, page) {
      forall i | 0 <= i < |b.pending|
        ensures b.pending[i].page != page
      {
        assert b.pending[i] in b.pending;
      }
      forall e
        ensures EntryOk(t, e)
      {
        assert EntryOk(b, e);
      }
      forall r
        ensures BatchOk(t, r)
      {
        assert BatchOk(b, r);
      }
    }
  }

  lemma ClearKeepsInv(b: Batching, page: Page, result: seq<Entry>)
    requires Inv(b) && Enabled(b, Clear(page, result))
    ensures Inv(Step(b, Clear(page, result)))
  {
    var t := Step(b, Clear(page, result));
    forall e
      ensures EntryOk(t, e)
    {
      assert EntryOk(b, e);
    }
    forall r
      ensures BatchOk(t, r)
    {
      assert BatchOk(b, r);
    }
  }

  lemma ResolveKeepsInv(b: Batching, w: World, requests: map<Option<nat>, RequestId>, result: seq<Entry>)
    requires Inv(b) && Enabled(b, Resolve(w, requests, result))
    ensures Inv(Step(b, Resolve(w, requests, result)))
  {
    hide PagesOf;
    var t := Step(b, Resolve(w, requests, result));
    AllResolved(b, w, requests, result);
    forall r
      ensures BatchOk(t, r)
    {
      assert BatchOk(b, r);
      if r in requests.Values {
        NewBatch(b, w, requests, result, GroupOf(requests, r));
      } else if r in b.waiting {
        OldBatchStays(b, w, requests, result, r);
      }
    }
  }

  lemma AllResolved(b: Batching, w: World, requests: map<Option<nat>, RequestId>, result: seq<Entry>)
    requires Inv(b) && Enabled(b, Resolve(w, requests, result))
    ensures var t := Step(b, Resolve(w, requests, result));
            Distinct(t.pending) && forall e :: EntryOk(t, e)
  {
    hide BatchOk, AskedFor;
    var t := Step(b, Resolve(w, requests, result));
    forall e | e in result
      ensures EntryOk(t, e)
    {
      var i :| 0 <= i < |result| && result[i] == e;
      assert b.pending[i] in b.pending && EntryOk(b, b.pending[i]);
    }
  }

  lemma NewBatch(b: Batching, w: World, requests: map<Option<nat>, RequestId>, result: seq<Entry>, group: Option<nat>)
    requires Inv(b) && Enabled(b, Resolve(w, requests, result)) && group in requests
    ensures PagesOf(result, requests[group]) == AskedFor(w, b.pending, group)
  {
    forall e, g | e in b.pending && g in requests
      ensures e.requestId != requests[g]
    {
      assert EntryOk(b, e) && BatchOk(b, e.requestId);
    }
    BatchIsItsGroup(w, b.pending, requests, result, group);
  }

  lemma OldBatchStays(b: Batching, w: World, requests: map<Option<nat>, RequestId>, result: seq<Entry>, r: RequestId)
    requires Inv(b) && Enabled(b, Resolve(w, requests, result)) && r in b.waiting
    ensures PagesOf(result, r) == PagesOf(b.pending, r)
  {
    assert BatchOk(b, r);
    forall page
      ensures page in PagesOf(result, r) <==> page in PagesOf(b.pending, r)
    {
      if page in PagesOf(result, r) {
        var i :| 0 <= i < |result| && result[i] == Entry(page, r);
        assert b.pending[i] in b.pending;
      }
      if page in PagesOf(b.pending, r) {
        var i :| 0 <= i < |b.pending| && b.pending[i] == Entry(page, r);
        assert result[i] in result;
      }
    }
  }

  lemma ReplyKeepsInv(b: Batching, requestId: RequestId)
    requires Inv(b) && Enabled(b, Reply(requestId))
    ensures Inv(Step(b, Reply(requestId)))
  {
    var t := Step(b, Reply(requestId));
    RemainingKeeps(b.pending, requestId);
    forall e
      ensures EntryOk(t, e)
    {
      assert EntryOk(b, e);
    }
    forall r
      ensures BatchOk(t, r)
    {
      assert BatchOk(b, r);
    }
  }

  lemma StepKeepsInv(b: Batching, e: Event)
    requires Inv(b) && Enabled(b, e)
    ensures Inv(Step(b, e))
  {
    hide Inv;
    match e
    case Delay(page) => DelayKeepsInv(b, page);
    case Clear(page, result) => ClearKeepsInv(b, page, result);
    case ClearAll => ClearAllKeepsInv(b);
    case Resolve(w, requests, result) => ResolveKeepsInv(b, w, requests, result);
    case Reply(requestId) => ReplyKeepsInv(b, requestId);
    case Fail(requestId) => FailKeepsInv(b, requestId);
  }

  lemma FailKeepsInv(b: Batching, requestId: RequestId)
    requires Inv(b) && Enabled(b, Fail(requestId))
    ensures Inv(Step(b, Fail(requestId)))
  {
    var t := Step(b, Fail(requestId));
    forall e
      ensures EntryOk(t, e)
    {
      assert EntryOk(b, e);
    }
    forall r
      ensures BatchOk(t, r)
    {
      assert BatchOk(b, r);
    }
  }

  lemma ClearAllKeepsInv(b: Batching)
    requires Inv(b)
    ensures Inv(Step(b, ClearAll))
  {
    forall r
      ensures BatchOk(Step(b, ClearAll), r)
    {
      assert BatchOk(b, r);
    }
  }

  ghost predicate AllEnabled(b: Batching, run: seq<Event>)
    decreases |run|
  {
    run == [] || (Enabled(b, run[0]) && AllEnabled(Step(b, run[0]), run[1..]))
  }

  ghost function Run(b: Batching, run: seq<Event>): Batching
    requires AllEnabled(b, run)
    decreases |run|
  {
    if run == [] then b else Run(Step(b, run[0]), run[1..])
  }

  lemma {:induction false} RunKeepsInv(b: Batching, run: seq<Event>)
    requires Inv(b) && AllEnabled(b, run)
    ensures Inv(Run(b, run))
    decreases |run|
  {
    hide Inv, Step, Enabled;
    if run != [] {
      StepKeepsInv(b, run[0]);
      RunKeepsInv(Step(b, run[0]), run[1..]);
    }
  }

  lemma StartInv()
    ensures Inv(START)
  {}

  /**
   * In every run the reply to a request removes the entries of exactly the pages the request was sent for, without
   * those that were cleared since: a page that was cleared and asked for again stays, and waits for its own request.
   */
  lemma ReplyRemovesItsBatch(run: seq<Event>, requestId: RequestId)
    requires AllEnabled(START, run) && Enabled(Run(START, run), Reply(requestId))
    ensures var b := Run(START, run);
            var t := Step(b, Reply(requestId));
            && PagesOf(b.pending, requestId) == b.waiting[requestId]
            && (forall e :: e in t.pending <==> e in b.pending && e.page !in b.waiting[requestId])
            && (forall page :: IsPending(t.pending, page) <==> IsPending(b.pending, page) && page !in b.waiting[requestId])
  {
    hide Run, AllEnabled, EntryOk, Remaining;
    StartInv();
    RunKeepsInv(START, run);
    var b := Run(START, run);
    var t := Step(b, Reply(requestId));
    assert BatchOk(b, requestId);
    RemainingKeeps(b.pending, requestId);
    forall e
      ensures e in t.pending <==> e in b.pending && e.page !in b.waiting[requestId]
    {
      if e in b.pending && e.page in b.waiting[requestId] {
        assert Entry(e.page, requestId) in b.pending;
        SamePage(b.pending, e, Entry(e.page, requestId));
      }
    }
  }

  lemma SamePage(pending: seq<Entry>, a: Entry, b: Entry)
    requires Distinct(pending) && a in pending && b in pending && a.page == b.page
    ensures a == b
  {
    var i :| 0 <= i < |pending| && pending[i] == a;
    var j :| 0 <= j < |pending| && pending[j] == b;
  }

  /** No page waits for two requests, and a page that waits for one is in the pending map. */
  lemma OneRequestForAPage(run: seq<Event>, r: RequestId, q: RequestId, page: Page)
    requires AllEnabled(START, run)
    requires var b := Run(START, run); r in b.waiting && q in b.waiting && page in b.waiting[r] && page in b.waiting[q]
    ensures r == q && IsPending(Run(START, run).pending, page)
  {
    hide Run, AllEnabled, EntryOk;
    StartInv();
    RunKeepsInv(START, run);
    var b := Run(START, run);
    assert BatchOk(b, r) && BatchOk(b, q);
    assert Entry(page, r) in b.pending && Entry(page, q) in b.pending;
    SamePage(b.pending, Entry(page, r), Entry(page, q));
  }

  // ----- A request that failed -----

  predicate Clears(e: Event, page: Page) { e.ClearAll? || (e.Clear? && e.page == page) }

  /** The pages that an event asks for */
  ghost predicate Asks(b: Batching, e: Event, page: Page) {
    e.Resolve? && exists g :: g in e.requests && page in AskedFor(e.w, b.pending, g)
  }

  /** The page waits for a request that failed. */
  ghost predicate Abandoned(b: Batching, page: Page, r: RequestId) { r in b.failed && Entry(page, r) in b.pending }

  lemma AbandonedStays(b: Batching, e: Event, page: Page, r: RequestId)
    requires Inv(b) && Enabled(b, e) && Abandoned(b, page, r)
    ensures !Asks(b, e, page)
    ensures !Clears(e, page) ==> Abandoned(Step(b, e), page, r)
  {
    var entry := Entry(page, r);
    assert BatchOk(b, r);
    match e
    case Resolve(w, requests, result) =>
      var i :| 0 <= i < |b.pending| && b.pending[i] == entry;
      assert result[i] == entry && result[i] in result;
      forall g | g in requests
        ensures page !in AskedFor(w, b.pending, g)
      {
        OnlyItsEntry(w, b.pending, g, entry);
      }
    case Reply(requestId) => RemainingKeeps(b.pending, requestId);
    case _ =>
  }

  lemma OnlyItsEntry(w: World, pending: seq<Entry>, group: Option<nat>, entry: Entry)
    requires Distinct(pending) && entry in pending && entry.requestId > 0
    ensures entry.page !in AskedFor(w, pending, group)
  {
    forall e | e in pending && e.page == entry.page
      ensures e == entry
    {
      SamePage(pending, e, entry);
    }
  }

  ghost predicate NeverAsks(b: Batching, run: seq<Event>, page: Page)
    requires AllEnabled(b, run)
    decreases |run|
  {
    run == [] || (!Asks(b, run[0], page) && NeverAsks(Step(b, run[0]), run[1..], page))
  }

  /** Until it is cleared, a page whose request failed keeps that request and is not asked for again, in every run. */
  lemma {:induction false} FailedIsNotAskedAgain(b: Batching, run: seq<Event>, page: Page, r: RequestId)
    requires Inv(b) && AllEnabled(b, run) && Abandoned(b, page, r)
    requires forall e | e in run :: !Clears(e, page)
    ensures NeverAsks(b, run, page) && Abandoned(Run(b, run), page, r)
    decreases |run|
  {
    hide Inv, Step, Enabled, Asks, Clears, Abandoned;
    if run != [] {
      AbandonedStays(b, run[0], page, r);
      StepKeepsInv(b, run[0]);
      FailedIsNotAskedAgain(Step(b, run[0]), run[1..], page, r);
    }
  }

  /** After a failure the pages that wait for it are those the request was sent for and that were not cleared. */
  lemma FailureAbandonsItsPages(run: seq<Event>, r: RequestId, page: Page)
    requires AllEnabled(START, run) && Enabled(Run(START, run), Fail(r))
    ensures Abandoned(Step(Run(START, run), Fail(r)), page, r) <==> page in Run(START, run).waiting[r]
  {
    hide Run, AllEnabled, EntryOk;
    StartInv();
    RunKeepsInv(START, run);
    var b := Run(START, run);
    assert BatchOk(b, r);
    assert page in PagesOf(b.pending, r) <==> Entry(page, r) in b.pending;
  }
}
