/** The requests of `InviteLinks` and their callbacks, and its methods as they change the cache in place. */
module InviteLinksApi {
  import opened InviteLinks
  import opened Options

  type Callback = nat
  type RequestId = nat

  datatype Key = Key(peer: Peer, link: string)

  datatype Flight =
    | CreateLink(peer: Peer)
    | EditLink(key: Key)
    | DeleteLink(key: Key)
    | DeleteRevoked(peer: Peer)
    | FirstSlice(peer: Peer)

  /**
   * The callbacks that wait, the peers whose first slice is requested, the requests in flight, and the peers whose
   * revoked links could not be deleted
   */
  datatype Requests = Requests(
    creates: map<Peer, seq<Callback>>, edits: map<Key, seq<Callback>>, deletes: map<Key, seq<Callback>>,
    revoked: map<Peer, seq<Callback>>, firstSlices: set<Peer>, flights: map<RequestId, Flight>, lastId: RequestId,
    stuck: set<Peer>)

  const NO_REQUESTS := Requests(map[], map[], map[], map[], {}, map[], 0, {})

  function Given(done: Option<Callback>): seq<Callback> {
    if done.None? then [] else [done.value]
  }

  function Sent(r: Requests, flight: Flight): Requests {
    r.(flights := r.flights[r.lastId + 1 := flight], lastId := r.lastId + 1)
  }

  /** `performCreate` */
  function Create(r: Requests, peer: Peer, done: Option<Callback>): Requests {
    if peer in r.creates then r.(creates := r.creates[peer := r.creates[peer] + Given(done)])
    else Sent(r.(creates := r.creates[peer := Given(done)]), CreateLink(peer))
  }

  /** `performEdit`; nothing is edited while it is being deleted. */
  function PerformEdit(r: Requests, key: Key, done: Option<Callback>): Requests {
    if key in r.deletes then r
    else if key in r.edits then r.(edits := r.edits[key := r.edits[key] + Given(done)])
    else Sent(r.(edits := r.edits[key := Given(done)]), EditLink(key))
  }

  /** `destroy` */
  function Destroy(r: Requests, key: Key, done: Option<Callback>): Requests {
    if key in r.deletes then r.(deletes := r.deletes[key := r.deletes[key] + Given(done)])
    else Sent(r.(deletes := r.deletes[key := Given(done)]), DeleteLink(key))
  }

  /** `destroyAllRevoked` */
  function DestroyRevoked(r: Requests, peer: Peer, done: Option<Callback>): Requests {
    if peer in r.revoked then r.(revoked := r.revoked[peer := r.revoked[peer] + Given(done)])
    else Sent(r.(revoked := r.revoked[peer := Given(done)]), DeleteRevoked(peer))
  }

  /** `requestMyLinks` */
  function RequestMyLinks(r: Requests, peer: Peer): Requests {
    if peer in r.firstSlices then r else Sent(r.(firstSlices := r.firstSlices + {peer}), FirstSlice(peer))
  }

  /** The answer to a request takes its callbacks away, and so does its failure ... */
  function Landed(r: Requests, id: RequestId): Requests
    requires id in r.flights
  {
    var landed := r.(flights := r.flights - {id});
    match r.flights[id]
    case CreateLink(peer) => landed.(creates := r.creates - {peer})
    case EditLink(key) => landed.(edits := r.edits - {key})
    case DeleteLink(key) => landed.(deletes := r.deletes - {key})
    case DeleteRevoked(peer) => landed.(revoked := r.revoked - {peer})
    case FirstSlice(peer) => landed.(firstSlices := r.firstSlices - {peer})
  }

  /** ... except for the deletion of all revoked links, which has no fail handler. */
  function Failed(r: Requests, id: RequestId): Requests
    requires id in r.flights
  {
    match r.flights[id]
    case DeleteRevoked(peer) => r.(flights := r.flights - {id}, stuck := r.stuck + {peer})
    case _ => Landed(r, id)
  }

  predicate Recorded(r: Requests, flight: Flight) {
    match flight
    case CreateLink(peer) => peer in r.creates
    case EditLink(key) => key in r.edits
    case DeleteLink(key) => key in r.deletes
    case DeleteRevoked(peer) => peer in r.revoked
    case FirstSlice(peer) => peer in r.firstSlices
  }

  /** Such a request failed before. */
  predicate Stuck(r: Requests, flight: Flight) { flight.DeleteRevoked? && flight.peer in r.stuck }

  /**
   * Every request in flight has its own record, no other request has the same one, and a record is without a request
   * exactly if that failed and cannot be sent again.
   */
  ghost predicate RequestsInv(r: Requests) {
    && (forall id | id in r.flights :: id <= r.lastId && Recorded(r, r.flights[id]) && !Stuck(r, r.flights[id]))
    && (forall i, j | i in r.flights && j in r.flights && r.flights[i] == r.flights[j] :: i == j)
    && (forall flight: Flight | Recorded(r, flight) && !Stuck(r, flight) ::
          exists id :: id in r.flights && r.flights[id] == flight)
    && (forall flight: Flight | Stuck(r, flight) :: Recorded(r, flight))
  }

  lemma SentKeepsInv(r: Requests, recorded: Requests, flight: Flight)
    requires RequestsInv(r) && !Recorded(r, flight) && Recorded(recorded, flight)
    requires recorded.flights == r.flights && recorded.lastId == r.lastId && recorded.stuck == r.stuck
    requires forall other: Flight | other != flight :: Recorded(recorded, other) <==> Recorded(r, other)
    ensures RequestsInv(Sent(recorded, flight))
  {
    hide Recorded;
    var s := Sent(recorded, flight);
    assert s.flights[r.lastId + 1] == flight;
    assert forall id | id in r.flights :: s.flights[id] == r.flights[id];
    forall f: Flight
      ensures Recorded(s, f) <==> Recorded(recorded, f)
    {
      RecordsStay(recorded, flight, f);
    }
  }

  lemma RecordsStay(r: Requests, sent: Flight, f: Flight)
    ensures Recorded(Sent(r, sent), f) <==> Recorded(r, f)
  {}

  lemma MoreCallbacksKeepInv(r: Requests, s: Requests)
    requires RequestsInv(r) && s.flights == r.flights && s.lastId == r.lastId && s.stuck == r.stuck
    requires forall f: Flight :: Recorded(s, f) <==> Recorded(r, f)
    ensures RequestsInv(s)
  {
    hide Recorded;
  }

  lemma CreateKeepsInv(r: Requests, peer: Peer, done: Option<Callback>)
    requires RequestsInv(r)
    ensures RequestsInv(Create(r, peer, done))
  {
    hide RequestsInv;
    if peer in r.creates {
      MoreCallbacksKeepInv(r, Create(r, peer, done));
    } else {
      SentKeepsInv(r, r.(creates := r.creates[peer := Given(done)]), CreateLink(peer));
    }
  }

  lemma EditKeepsRequests(r: Requests, key: Key, done: Option<Callback>)
    requires RequestsInv(r)
    ensures RequestsInv(PerformEdit(r, key, done))
  {
    hide RequestsInv;
    if key in r.deletes {
    } else if key in r.edits {
      MoreCallbacksKeepInv(r, PerformEdit(r, key, done));
    } else {
      SentKeepsInv(r, r.(edits := r.edits[key := Given(done)]), EditLink(key));
    }
  }

  lemma DestroyKeepsInv(r: Requests, key: Key, done: Option<Callback>)
    requires RequestsInv(r)
    ensures RequestsInv(Destroy(r, key, done))
  {
    hide RequestsInv;
    if key in r.deletes {
      MoreCallbacksKeepInv(r, Destroy(r, key, done));
    } else {
      SentKeepsInv(r, r.(deletes := r.deletes[key := Given(done)]), DeleteLink(key));
    }
  }

  lemma DestroyRevokedKeepsInv(r: Requests, peer: Peer, done: Option<Callback>)
    requires RequestsInv(r)
    ensures RequestsInv(DestroyRevoked(r, peer, done))
  {
    hide RequestsInv;
    if peer in r.revoked {
      MoreCallbacksKeepInv(r, DestroyRevoked(r, peer, done));
    } else {
      SentKeepsInv(r, r.(revoked := r.revoked[peer := Given(done)]), DeleteRevoked(peer));
    }
  }

  lemma RequestMyLinksKeepsInv(r: Requests, peer: Peer)
    requires RequestsInv(r)
    ensures RequestsInv(RequestMyLinks(r, peer))
  {
    hide RequestsInv;
    if peer !in r.firstSlices {
      SentKeepsInv(r, r.(firstSlices := r.firstSlices + {peer}), FirstSlice(peer));
    }
  }

  /** A reply finds its callbacks, so that `*callbacks` is there to be read, and takes exactly its own record away. */
  lemma LandedKeepsInv(r: Requests, id: RequestId)
    requires RequestsInv(r) && id in r.flights
    ensures Recorded(r, r.flights[id]) && !Recorded(Landed(r, id), r.flights[id])
    ensures RequestsInv(Landed(r, id))
  {
    hide Recorded, Landed;
    var s := Landed(r, id);
    LandedFlights(r, id);
    forall f: Flight
      ensures Recorded(s, f) <==> Recorded(r, f) && f != r.flights[id]
    {
      LandedRecord(r, id, f);
    }
    assert forall i | i in s.flights :: s.flights[i] == r.flights[i];
    forall f: Flight | Recorded(s, f) && !Stuck(s, f)
      ensures exists i :: i in s.flights && s.flights[i] == f
    {
      var i :| i in r.flights && r.flights[i] == f;
      assert i in s.flights;
    }
  }

  lemma LandedFlights(r: Requests, id: RequestId)
    requires id in r.flights
    ensures Landed(r, id).flights == r.flights - {id} && Landed(r, id).lastId == r.lastId
    ensures Landed(r, id).stuck == r.stuck
  {}

  lemma LandedRecord(r: Requests, id: RequestId, f: Flight)
    requires id in r.flights
    ensures Recorded(Landed(r, id), f) <==> Recorded(r, f) && f != r.flights[id]
  {}

  /** A failed deletion of all revoked links leaves its record behind. */
  lemma FailedKeepsInv(r: Requests, id: RequestId)
    requires RequestsInv(r) && id in r.flights
    ensures RequestsInv(Failed(r, id))
  {
    hide RequestsInv, Landed;
    if r.flights[id].DeleteRevoked? {
      DeletionFailedKeepsInv(r, id);
    } else {
      LandedKeepsInv(r, id);
    }
  }

  lemma DeletionFailedKeepsInv(r: Requests, id: RequestId)
    requires RequestsInv(r) && id in r.flights && r.flights[id].DeleteRevoked?
    ensures RequestsInv(r.(flights := r.flights - {id}, stuck := r.stuck + {r.flights[id].peer}))
  {
    hide Recorded;
    var s := r.(flights := r.flights - {id}, stuck := r.stuck + {r.flights[id].peer});
    forall f: Flight
      ensures Recorded(s, f) <==> Recorded(r, f)
    {
      SameRecords(r, s, f);
    }
    forall f: Flight | Recorded(s, f) && !Stuck(s, f)
      ensures exists i :: i in s.flights && s.flights[i] == f
    {
      var i :| i in r.flights && r.flights[i] == f;
      assert i in s.flights;
    }
  }

  lemma SameRecords(r: Requests, s: Requests, f: Flight)
    requires s == r.(flights := s.flights, stuck := s.stuck)
    ensures Recorded(s, f) <==> Recorded(r, f)
  {}

  datatype Call =
    | CallCreate(peer: Peer, done: Option<Callback>)
    | CallEdit(key: Key, done: Option<Callback>)
    | CallDestroy(key: Key, done: Option<Callback>)
    | CallDestroyRevoked(peer: Peer, done: Option<Callback>)
    | CallMyLinks(peer: Peer)
    | Answer(id: RequestId, ok: bool)

  predicate Enabled(r: Requests, call: Call) { call.Answer? ==> call.id in r.flights }

  function Called(r: Requests, call: Call): Requests
    requires Enabled(r, call)
  {
    match call
    case CallCreate(peer, done) => Create(r, peer, done)
    case CallEdit(key, done) => PerformEdit(r, key, done)
    case CallDestroy(key, done) => Destroy(r, key, done)
    case CallDestroyRevoked(peer, done) => DestroyRevoked(r, peer, done)
    case CallMyLinks(peer) => RequestMyLinks(r, peer)
    case Answer(id, ok) => if ok then Landed(r, id) else Failed(r, id)
  }

  predicate AllEnabled(r: Requests, calls: seq<Call>)
    decreases |calls|
  {
    calls == [] || (Enabled(r, calls[0]) && AllEnabled(Called(r, calls[0]), calls[1..]))
  }

  function AllCalled(r: Requests, calls: seq<Call>): Requests
    requires AllEnabled(r, calls)
    decreases |calls|
  {
    if calls == [] then r else AllCalled(Called(r, calls[0]), calls[1..])
  }

  lemma CalledKeepsInv(r: Requests, call: Call)
    requires RequestsInv(r) && Enabled(r, call)
    ensures RequestsInv(Called(r, call))
  {
    hide RequestsInv, Create, PerformEdit, Destroy, DestroyRevoked, RequestMyLinks, Landed, Failed;
    match call
    case CallCreate(peer, done) => CreateKeepsInv(r, peer, done);
    case CallEdit(key, done) => EditKeepsRequests(r, key, done);
    case CallDestroy(key, done) => DestroyKeepsInv(r, key, done);
    case CallDestroyRevoked(peer, done) => DestroyRevokedKeepsInv(r, peer, done);
    case CallMyLinks(peer) => RequestMyLinksKeepsInv(r, peer);
    case Answer(id, _) =>
      LandedKeepsInv(r, id);
      FailedKeepsInv(r, id);
  }

  /** Callbacks that call back into the class are further calls of the run. */
  lemma {:induction false} AllCalledKeepsInv(r: Requests, calls: seq<Call>)
    requires RequestsInv(r) && AllEnabled(r, calls)
    ensures RequestsInv(AllCalled(r, calls))
    decreases |calls|
  {
    hide RequestsInv, Called;
    if calls != [] {
      CalledKeepsInv(r, calls[0]);
      AllCalledKeepsInv(Called(r, calls[0]), calls[1..]);
    }
  }

  lemma NothingRecorded()
    ensures RequestsInv(NO_REQUESTS)
  {}

  /**
   * From the start: every request in flight has its own record, and a record is without a request exactly if it is
   * that of a deletion of all revoked links that failed.
   */
  lemma RequestsAreRecorded(calls: seq<Call>, flight: Flight)
    requires AllEnabled(NO_REQUESTS, calls)
    ensures var r := AllCalled(NO_REQUESTS, calls);
            && RequestsInv(r)
            && (flight in r.flights.Values ==> Recorded(r, flight))
            && (Recorded(r, flight) && flight !in r.flights.Values <==> Stuck(r, flight))
  {
    hide AllCalled, AllEnabled, Recorded;
    NothingRecorded();
    AllCalledKeepsInv(NO_REQUESTS, calls);
  }

  /** What a call would send */
  function FlightOf(call: Call): Flight
    requires !call.Answer?
  {
    match call
    case CallCreate(peer, _) => CreateLink(peer)
    case CallEdit(key, _) => EditLink(key)
    case CallDestroy(key, _) => DeleteLink(key)
    case CallDestroyRevoked(peer, _) => DeleteRevoked(peer)
    case CallMyLinks(peer) => FirstSlice(peer)
  }

  /** A call sends its request exactly if that has no record yet, and for an edit, if its link is not being deleted. */
  lemma SendsIff(r: Requests, call: Call)
    requires !call.Answer?
    ensures var t, flight := Called(r, call), FlightOf(call);
            if !Recorded(r, flight) && !(call.CallEdit? && call.key in r.deletes) then
              t.flights == r.flights[r.lastId + 1 := flight] && t.lastId == r.lastId + 1 && Recorded(t, flight)
            else t.flights == r.flights && t.lastId == r.lastId
  {
    hide Given;
  }

  // ----- Every callback is called, dropped or waiting -----

  /** The callbacks that wait for a request */
  function WaitingFor(r: Requests, flight: Flight): seq<Callback> {
    match flight
    case CreateLink(peer) => if peer in r.creates then r.creates[peer] else []
    case EditLink(key) => if key in r.edits then r.edits[key] else []
    case DeleteLink(key) => if key in r.deletes then r.deletes[key] else []
    case DeleteRevoked(peer) => if peer in r.revoked then r.revoked[peer] else []
    case FirstSlice(_) => []
  }

  type Counts = map<Flight, multiset<Callback>>

  /** The callbacks that were given so far, were called, and were dropped, for each request */
  datatype Ledger = Ledger(requests: Requests, given: Counts, called: Counts, dropped: Counts)

  const NEW_LEDGER := Ledger(NO_REQUESTS, map[], map[], map[])

  function Count(counts: Counts, flight: Flight): multiset<Callback> {
    if flight in counts then counts[flight] else multiset{}
  }

  function Added(counts: Counts, flight: Flight, callbacks: seq<Callback>): Counts {
    counts[flight := Count(counts, flight) + multiset(callbacks)]
  }

  /**
   * A failed request, and one that gives no link, drops its callbacks, unless it has no fail handler; so does an edit of
   * a link that is being deleted.
   */
  function Entered(l: Ledger, call: Call): Ledger
    requires Enabled(l.requests, call)
  {
    var next := l.(requests := Called(l.requests, call));
    match call
    case CallCreate(peer, done) => next.(given := Added(l.given, CreateLink(peer), Given(done)))
    case CallEdit(key, done) =>
      next.(given := Added(l.given, EditLink(key), Given(done)),
            dropped := if key in l.requests.deletes then Added(l.dropped, EditLink(key), Given(done)) else l.dropped)
    case CallDestroy(key, done) => next.(given := Added(l.given, DeleteLink(key), Given(done)))
    case CallDestroyRevoked(peer, done) => next.(given := Added(l.given, DeleteRevoked(peer), Given(done)))
    case CallMyLinks(_) => next
    case Answer(id, ok) =>
      var flight := l.requests.flights[id];
      var callbacks := WaitingFor(l.requests, flight);
      if ok then next.(called := Added(l.called, flight, callbacks))
      else if flight.DeleteRevoked? then next
      else next.(dropped := Added(l.dropped, flight, callbacks))
  }

  function AllEntered(l: Ledger, calls: seq<Call>): Ledger
    requires AllEnabled(l.requests, calls)
    decreases |calls|
  {
    if calls == [] then l else AllEntered(Entered(l, calls[0]), calls[1..])
  }

  ghost predicate Balanced(l: Ledger, flight: Flight) {
    Count(l.given, flight)
    == Count(l.called, flight) + Count(l.dropped, flight) + multiset(WaitingFor(l.requests, flight))
  }

  lemma CountAdded(counts: Counts, flight: Flight, callbacks: seq<Callback>, other: Flight)
    ensures Count(Added(counts, flight, callbacks), other)
         == Count(counts, other) + if other == flight then multiset(callbacks) else multiset{}
  {}

  lemma CreateBalances(l: Ledger, peer: Peer, done: Option<Callback>, flight: Flight)
    requires Balanced(l, flight)
    ensures Balanced(Entered(l, CallCreate(peer, done)), flight)
  {
    hide Count, Added, Given;
    CountAdded(l.given, CreateLink(peer), Given(done), flight);
  }

  /** A callback that joins comes last. */
  lemma CreateWaits(r: Requests, peer: Peer, done: Option<Callback>, flight: Flight)
    ensures WaitingFor(Create(r, peer, done), flight)
         == WaitingFor(r, flight) + if flight == CreateLink(peer) then Given(done) else []
  {
    hide Given;
  }

  lemma EditWaits(r: Requests, key: Key, done: Option<Callback>, flight: Flight)
    ensures WaitingFor(PerformEdit(r, key, done), flight)
         == WaitingFor(r, flight) + if flight == EditLink(key) && key !in r.deletes then Given(done) else []
  {
    hide Given;
  }

  lemma DestroyWaits(r: Requests, key: Key, done: Option<Callback>, flight: Flight)
    ensures WaitingFor(Destroy(r, key, done), flight)
         == WaitingFor(r, flight) + if flight == DeleteLink(key) then Given(done) else []
  {
    hide Given;
  }

  lemma EditBalances(l: Ledger, key: Key, done: Option<Callback>, flight: Flight)
    requires Balanced(l, flight)
    ensures Balanced(Entered(l, CallEdit(key, done)), flight)
  {
    hide Count, Added, Given, WaitingFor, PerformEdit;
    EditWaits(l.requests, key, done, flight);
    CountAdded(l.given, EditLink(key), Given(done), flight);
    CountAdded(l.dropped, EditLink(key), Given(done), flight);
  }

  lemma DestroyBalances(l: Ledger, key: Key, done: Option<Callback>, flight: Flight)
    requires Balanced(l, flight)
    ensures Balanced(Entered(l, CallDestroy(key, done)), flight)
  {
    hide Count, Added, Given, WaitingFor, Destroy;
    DestroyWaits(l.requests, key, done, flight);
    CountAdded(l.given, DeleteLink(key), Given(done), flight);
  }

  lemma DestroyRevokedWaits(r: Requests, peer: Peer, done: Option<Callback>, flight: Flight)
    ensures WaitingFor(DestroyRevoked(r, peer, done), flight)
         == WaitingFor(r, flight) + if flight == DeleteRevoked(peer) then Given(done) else []
  {
    hide Given;
  }

  lemma DestroyRevokedBalances(l: Ledger, peer: Peer, done: Option<Callback>, flight: Flight)
    requires Balanced(l, flight)
    ensures Balanced(Entered(l, CallDestroyRevoked(peer, done)), flight)
  {
    hide Count, Added, Given, WaitingFor, DestroyRevoked;
    DestroyRevokedWaits(l.requests, peer, done, flight);
    CountAdded(l.given, DeleteRevoked(peer), Given(done), flight);
  }

  lemma FailedWaits(r: Requests, id: RequestId, flight: Flight)
    requires id in r.flights
    ensures WaitingFor(Failed(r, id), flight)
         == if flight == r.flights[id] && !flight.DeleteRevoked? then [] else WaitingFor(r, flight)
  {
    hide Landed;
    LandedDoesNotWait(r, id, flight);
  }

  lemma LandedDoesNotWait(r: Requests, id: RequestId, flight: Flight)
    requires id in r.flights
    ensures WaitingFor(Landed(r, id), flight) == if flight == r.flights[id] then [] else WaitingFor(r, flight)
  {}

  lemma DoneBalances(l: Ledger, id: RequestId, flight: Flight)
    requires Balanced(l, flight) && id in l.requests.flights
    ensures Balanced(Entered(l, Answer(id, true)), flight)
  {
    hide Count, Added, WaitingFor, Landed, Failed;
    LandedDoesNotWait(l.requests, id, flight);
    var its := l.requests.flights[id];
    CountAdded(l.called, its, WaitingFor(l.requests, its), flight);
  }

  lemma FailBalances(l: Ledger, id: RequestId, flight: Flight)
    requires Balanced(l, flight) && id in l.requests.flights
    ensures Balanced(Entered(l, Answer(id, false)), flight)
  {
    hide Count, Added, WaitingFor, Landed, Failed;
    FailedWaits(l.requests, id, flight);
    var its := l.requests.flights[id];
    CountAdded(l.dropped, its, WaitingFor(l.requests, its), flight);
  }

  lemma MyLinksBalance(l: Ledger, peer: Peer, flight: Flight)
    requires Balanced(l, flight)
    ensures Balanced(Entered(l, CallMyLinks(peer)), flight)
  {
    hide Count;
  }

  lemma EnteredBalances(l: Ledger, call: Call, flight: Flight)
    requires Enabled(l.requests, call) && Balanced(l, flight)
    ensures Balanced(Entered(l, call), flight)
  {
    hide Entered, Balanced;
    match call
    case CallCreate(peer, done) => CreateBalances(l, peer, done, flight);
    case CallEdit(key, done) => EditBalances(l, key, done, flight);
    case CallDestroy(key, done) => DestroyBalances(l, key, done, flight);
    case CallDestroyRevoked(peer, done) => DestroyRevokedBalances(l, peer, done, flight);
    case CallMyLinks(peer) => MyLinksBalance(l, peer, flight);
    case Answer(id, ok) => if ok { DoneBalances(l, id, flight); } else { FailBalances(l, id, flight); }
  }

  lemma EnteredRequests(l: Ledger, call: Call)
    requires Enabled(l.requests, call)
    ensures Entered(l, call).requests == Called(l.requests, call)
  {
    hide Called, Added, WaitingFor;
  }

  lemma {:induction false} AllEnteredBalance(l: Ledger, calls: seq<Call>, flight: Flight)
    requires AllEnabled(l.requests, calls) && Balanced(l, flight)
    ensures Balanced(AllEntered(l, calls), flight)
    ensures AllEntered(l, calls).requests == AllCalled(l.requests, calls)
    decreases |calls|
  {
    hide Balanced, Called, Entered, Enabled;
    if calls != [] {
      EnteredBalances(l, calls[0], flight);
      EnteredRequests(l, calls[0]);
      AllEnteredBalance(Entered(l, calls[0]), calls[1..], flight);
    }
  }

  /**
   * From the start, for every kind of request: the callbacks given are the ones called, the ones dropped and the ones
   * that wait. Those of a request that is not in flight do not wait, unless it is a deletion of revoked links that failed.
   */
  lemma CallbacksAreConserved(calls: seq<Call>, flight: Flight)
    requires AllEnabled(NO_REQUESTS, calls)
    ensures var l := AllEntered(NEW_LEDGER, calls);
            && l.requests == AllCalled(NO_REQUESTS, calls)
            && Count(l.given, flight)
               == Count(l.called, flight) + Count(l.dropped, flight) + multiset(WaitingFor(l.requests, flight))
            && (flight !in l.requests.flights.Values ==> WaitingFor(l.requests, flight) == [] || Stuck(l.requests, flight))
  {
    hide AllCalled, AllEnabled, AllEntered, Stuck;
    AllEnteredBalance(NEW_LEDGER, calls, flight);
    RequestsAreRecorded(calls, flight);
    UnrecordedDoNotWait(AllCalled(NO_REQUESTS, calls), flight);
  }

  lemma UnrecordedDoNotWait(r: Requests, flight: Flight)
    ensures !Recorded(r, flight) ==> WaitingFor(r, flight) == []
  {}

  // ----- Revoked links that could not be deleted -----

  /** What later calls of a peer add to its callbacks */
  function MoreFor(peer: Peer, call: Call): seq<Callback> {
    if call.CallDestroyRevoked? && call.peer == peer then Given(call.done) else []
  }

  function AllMoreFor(peer: Peer, calls: seq<Call>): seq<Callback>
    decreases |calls|
  {
    if calls == [] then [] else MoreFor(peer, calls[0]) + AllMoreFor(peer, calls[1..])
  }

  lemma StuckStays(l: Ledger, call: Call, peer: Peer)
    requires RequestsInv(l.requests) && Enabled(l.requests, call) && peer in l.requests.stuck
    ensures var t, flight := Entered(l, call), DeleteRevoked(peer);
            && peer in t.requests.stuck
            && Count(t.called, flight) == Count(l.called, flight) && Count(t.dropped, flight) == Count(l.dropped, flight)
            && WaitingFor(t.requests, flight) == WaitingFor(l.requests, flight) + MoreFor(peer, call)
            && flight !in t.requests.flights.Values
  {
    hide RequestsInv, Count, Added, WaitingFor, Create, PerformEdit, Destroy, DestroyRevoked, RequestMyLinks, Landed, Failed;
    var flight := DeleteRevoked(peer);
    StuckIsRecorded(l.requests, peer);
    NothingElseStuck(l.requests, call, peer);
    CalledKeepsInv(l.requests, call);
    EnteredRequests(l, call);
    StuckIsNotInFlight(Called(l.requests, call), peer);
    match call
    case CallCreate(_, _) =>
    case CallEdit(key, done) => CountAdded(l.dropped, EditLink(key), Given(done), flight);
    case CallDestroy(_, _) =>
    case CallDestroyRevoked(_, _) =>
    case CallMyLinks(_) =>
    case Answer(id, ok) =>
      StuckIsNotInFlight(l.requests, peer);
      var its := l.requests.flights[id];
      assert its in l.requests.flights.Values;
      CountAdded(l.called, its, WaitingFor(l.requests, its), flight);
      CountAdded(l.dropped, its, WaitingFor(l.requests, its), flight);
  }

  lemma StuckIsRecorded(r: Requests, peer: Peer)
    requires RequestsInv(r) && peer in r.stuck
    ensures peer in r.revoked
  {
    assert Stuck(r, DeleteRevoked(peer));
  }

  lemma StuckIsNotInFlight(r: Requests, peer: Peer)
    requires RequestsInv(r)
    ensures peer in r.stuck ==> DeleteRevoked(peer) !in r.flights.Values
  {
    hide Recorded;
  }

  /** The callbacks of such a peer only become more. */
  lemma NothingElseStuck(r: Requests, call: Call, peer: Peer)
    requires Enabled(r, call) && peer in r.stuck && RequestsInv(r)
    ensures peer in Called(r, call).stuck
    ensures WaitingFor(Called(r, call), DeleteRevoked(peer)) == WaitingFor(r, DeleteRevoked(peer)) + MoreFor(peer, call)
  {
    hide RequestsInv, Given;
    StuckIsNotInFlight(r, peer);
    StuckIsRecorded(r, peer);
    if call.Answer? {
      assert r.flights[call.id] in r.flights.Values;
    }
  }

  /**
   * When the deletion of a peer's revoked links failed, no later call sends it again in any run: the callbacks that are
   * given then join the waiting ones, and none is ever called or dropped.
   */
  lemma {:induction false} NeverDeletedAgain(l: Ledger, calls: seq<Call>, peer: Peer)
    requires RequestsInv(l.requests) && AllEnabled(l.requests, calls) && peer in l.requests.stuck
    ensures var t, flight := AllEntered(l, calls), DeleteRevoked(peer);
            && peer in t.requests.stuck && flight !in t.requests.flights.Values
            && Count(t.called, flight) == Count(l.called, flight) && Count(t.dropped, flight) == Count(l.dropped, flight)
            && WaitingFor(t.requests, flight) == WaitingFor(l.requests, flight) + AllMoreFor(peer, calls)
    decreases |calls|
  {
    hide RequestsInv, Count, WaitingFor, Entered, Called, Enabled, MoreFor;
    if calls == [] {
      StuckIsNotInFlight(l.requests, peer);
    } else {
      StuckStays(l, calls[0], peer);
      EnteredRequests(l, calls[0]);
      CalledKeepsInv(l.requests, calls[0]);
      NeverDeletedAgain(Entered(l, calls[0]), calls[1..], peer);
    }
  }

  /** A failure, and a call behind it: both callbacks wait, and nothing is in flight. */
  lemma FailedDeletionWaits(peer: Peer)
    ensures var calls := [CallDestroyRevoked(peer, Some(0)), Answer(1, false), CallDestroyRevoked(peer, Some(1))];
            && AllEnabled(NO_REQUESTS, calls)
            && var r := AllCalled(NO_REQUESTS, calls);
               r.flights == map[] && WaitingFor(r, DeleteRevoked(peer)) == [0, 1] && r.stuck == {peer}
  {
    var calls := [CallDestroyRevoked(peer, Some(0)), Answer(1, false), CallDestroyRevoked(peer, Some(1))];
    var r1 := NO_REQUESTS.(revoked := map[peer := [0]], flights := map[1 := DeleteRevoked(peer)], lastId := 1);
    var r2 := r1.(flights := map[], stuck := {peer});
    var r3 := r2.(revoked := map[peer := [0, 1]]);
    assert Called(NO_REQUESTS, calls[0]) == r1;
    assert r1.flights - {1} == map[];
    assert Called(r1, calls[1]) == r2;
    assert [0] + [1] == [0, 1];
    assert Called(r2, calls[2]) == r3;
    hide Called, Enabled;
    assert calls[1..] == [calls[1], calls[2]] && calls[1..][1..] == [calls[2]] && [calls[2]][1..] == [];
    assert AllEnabled(r3, []) && AllCalled(r3, []) == r3;
    assert AllEnabled(r2, [calls[2]]) && AllCalled(r2, [calls[2]]) == r3;
    assert AllEnabled(r1, calls[1..]) && AllCalled(r1, calls[1..]) == r3;
  }

  lemma {:induction false} WithoutLiveAppend(links: seq<Link>, link: Link)
    ensures WithoutLive(links + [link]) == WithoutLive(links) + if Live(link) then [] else [link]
  {
    if links == [] {
      assert [] + [link] == [link] && [link][1..] == [];
    } else {
      assert (links + [link])[1..] == links[1..] + [link];
      WithoutLiveAppend(links[1..], link);
    }
  }

  lemma {:induction false} WithoutLinkAppend(links: seq<Link>, link: Link, known: Option<Link>)
    ensures WithoutLink(links + [link], known)
         == WithoutLink(links, known) + if known.Some? && link.link == known.value.link then [] else [link]
  {
    if links == [] {
      assert [] + [link] == [link] && [link][1..] == [];
    } else {
      assert (links + [link])[1..] == links[1..] + [link];
      WithoutLinkAppend(links[1..], link, known);
    }
  }

  lemma {:induction false} IndexOfIs(links: seq<Link>, key: string, j: nat)
    requires j <= |links| && (j < |links| ==> links[j].link == key)
    requires forall i | 0 <= i < j :: links[i].link != key
    ensures IndexOf(links, key) == j
  {
    if j > 0 {
      IndexOfIs(links[1..], key, j - 1);
    }
  }

  lemma {:induction false} IndexOfLiveIs(links: seq<Link>, j: nat)
    requires j <= |links| && (j < |links| ==> Live(links[j]))
    requires forall i | 0 <= i < j :: !Live(links[i])
    ensures IndexOfLive(links) == j
  {
    if j > 0 {
      IndexOfLiveIs(links[1..], j - 1);
    }
  }

  /** The class; `main` stands for the main link stored with each peer. */
  class InviteLinksCache {
    var firstSlices: map<Peer, Links>
    var main: map<Peer, string>
    var createCallbacks: map<Peer, seq<Callback>>
    var editCallbacks: map<Key, seq<Callback>>
    var deleteCallbacks: map<Key, seq<Callback>>
    var deleteRevokedCallbacks: map<Peer, seq<Callback>>
    var firstSliceRequests: set<Peer>
    var called: seq<Callback>
    ghost var flights: map<RequestId, Flight>
    ghost var stuck: set<Peer>
    ghost var given: Counts
    ghost var calledFor: Counts
    ghost var dropped: Counts
    var lastId: RequestId

    constructor ()
      ensures Cached() == Cache(map[], map[]) && Book() == NEW_LEDGER && called == []
    {
      firstSlices, main := map[], map[];
      createCallbacks, editCallbacks, deleteCallbacks, firstSliceRequests := map[], map[], map[], {};
      deleteRevokedCallbacks, called, flights, stuck, lastId := map[], [], map[], {}, 0;
      given, calledFor, dropped := map[], map[], map[];
    }

    function Cached(): Cache
      reads this
    {
      Cache(firstSlices, main)
    }

    ghost function InFlight(): Requests
      reads this
    {
      Requests(createCallbacks, editCallbacks, deleteCallbacks, deleteRevokedCallbacks, firstSliceRequests, flights,
               lastId, stuck)
    }

    /** The requests and what became of the callbacks so far */
    ghost function Book(): Ledger
      reads this
    {
      Ledger(InFlight(), given, calledFor, dropped)
    }

    method Send(ghost flight: Flight)
      modifies this`flights, this`lastId
      ensures InFlight() == Sent(old(InFlight()), flight)
    {
      lastId := lastId + 1;
      flights := flights[lastId := flight];
    }

    /** A callback joins those that wait for the same thing. */
    static method Joined<K>(callbacks: map<K, seq<Callback>>, key: K, done: Option<Callback>)
      returns (joined: map<K, seq<Callback>>)
      requires key in callbacks
      ensures joined == callbacks[key := callbacks[key] + Given(done)]
    {
      if done.Some? {
        joined := callbacks[key := callbacks[key] + [done.value]];
      } else {
        joined := callbacks;
        assert callbacks[key] + [] == callbacks[key];
      }
    }

    method PerformEditLink(key: Key, done: Option<Callback>)
      modifies this`editCallbacks, this`flights, this`lastId, this`given, this`dropped
      ensures Book() == Entered(old(Book()), CallEdit(key, done))
    {
      hide Added, Given;
      given := Added(given, EditLink(key), Given(done));
      if key in deleteCallbacks {
        dropped := Added(dropped, EditLink(key), Given(done));
        return;
      } else if key in editCallbacks {
        editCallbacks := Joined(editCallbacks, key, done);
        return;
      }
      editCallbacks := Joined(editCallbacks[key := []], key, done);
      assert [] + Given(done) == Given(done);
      Send(EditLink(key));
    }

    method PerformCreate(peer: Peer, done: Option<Callback>)
      modifies this`createCallbacks, this`flights, this`lastId, this`given
      ensures Book() == Entered(old(Book()), CallCreate(peer, done))
    {
      hide Added, Given;
      given := Added(given, CreateLink(peer), Given(done));
      if peer in createCallbacks {
        createCallbacks := Joined(createCallbacks, peer, done);
        return;
      }
      createCallbacks := Joined(createCallbacks[peer := []], peer, done);
      assert [] + Given(done) == Given(done);
      Send(CreateLink(peer));
    }

    /** `destroy` */
    method DestroyLink(key: Key, done: Option<Callback>)
      modifies this`deleteCallbacks, this`flights, this`lastId, this`given
      ensures Book() == Entered(old(Book()), CallDestroy(key, done))
    {
      hide Added, Given;
      given := Added(given, DeleteLink(key), Given(done));
      if key in deleteCallbacks {
        deleteCallbacks := Joined(deleteCallbacks, key, done);
        return;
      }
      deleteCallbacks := Joined(deleteCallbacks[key := []], key, done);
      assert [] + Given(done) == Given(done);
      Send(DeleteLink(key));
    }

    method DestroyAllRevoked(peer: Peer, done: Option<Callback>)
      modifies this`deleteRevokedCallbacks, this`flights, this`lastId, this`given
      ensures Book() == Entered(old(Book()), CallDestroyRevoked(peer, done))
    {
      hide Added, Given;
      given := Added(given, DeleteRevoked(peer), Given(done));
      if peer in deleteRevokedCallbacks {
        deleteRevokedCallbacks := Joined(deleteRevokedCallbacks, peer, done);
        return;
      }
      deleteRevokedCallbacks := Joined(deleteRevokedCallbacks[peer := []], peer, done);
      assert [] + Given(done) == Given(done);
      Send(DeleteRevoked(peer));
    }

    method RequestLinks(peer: Peer)
      modifies this`firstSliceRequests, this`flights, this`lastId
      ensures Book() == Entered(old(Book()), CallMyLinks(peer))
    {
      if peer in firstSliceRequests {
        return;
      }
      firstSliceRequests := firstSliceRequests + {peer};
      Send(FirstSlice(peer));
    }

    /** Takes the callbacks of an answered or failed creation. */
    method TakeCreates(ghost id: RequestId, peer: Peer, ghost ok: bool) returns (callbacks: seq<Callback>)
      requires RequestsInv(InFlight()) && id in flights && flights[id] == CreateLink(peer)
      modifies this`createCallbacks, this`flights, this`calledFor, this`dropped
      ensures RequestsInv(InFlight()) && Book() == Entered(old(Book()), Answer(id, ok))
      ensures callbacks == WaitingFor(old(InFlight()), CreateLink(peer))
    {
      hide RequestsInv, Added;
      LandedKeepsInv(InFlight(), id);
      callbacks := createCallbacks[peer];
      createCallbacks := createCallbacks - {peer};
      flights := flights - {id};
      if ok {
        calledFor := Added(calledFor, CreateLink(peer), callbacks);
      } else {
        dropped := Added(dropped, CreateLink(peer), callbacks);
      }
    }

    /** The answer to a creation; without a link, or for a failure, its callbacks are dropped. */
    method CreateDone(ghost id: RequestId, peer: Peer, result: Option<Link>)
      requires RequestsInv(InFlight()) && id in flights && flights[id] == CreateLink(peer)
      modifies this`firstSlices, this`main, this`createCallbacks, this`called, this`flights, this`calledFor, this`dropped
      ensures RequestsInv(InFlight()) && Book() == Entered(old(Book()), Answer(id, result.Some?))
      ensures called == old(called) + if result.Some? then WaitingFor(old(InFlight()), CreateLink(peer)) else []
      ensures Cached() == if result.Some? then Prepended(old(Cached()), peer, result.value) else old(Cached())
    {
      hide RequestsInv, Prepended, WaitingFor, Entered;
      var callbacks := TakeCreates(id, peer, result.Some?);
      if result.None? {
        return;
      }
      PrependMyToFirstSlice(peer, result.value);
      called := called + callbacks;
    }

    /** The answer to a deletion, or its failure */
    method DestroyDone(ghost id: RequestId, key: Key, ok: bool)
      requires RequestsInv(InFlight()) && id in flights && flights[id] == DeleteLink(key)
      modifies this`deleteCallbacks, this`called, this`flights, this`calledFor, this`dropped
      ensures RequestsInv(InFlight()) && Book() == Entered(old(Book()), Answer(id, ok))
      ensures called == old(called) + if ok then WaitingFor(old(InFlight()), DeleteLink(key)) else []
    {
      hide RequestsInv, Added;
      LandedKeepsInv(InFlight(), id);
      var callbacks := deleteCallbacks[key];
      deleteCallbacks := deleteCallbacks - {key};
      flights := flights - {id};
      if ok {
        calledFor := Added(calledFor, DeleteLink(key), callbacks);
        called := called + callbacks;
      } else {
        dropped := Added(dropped, DeleteLink(key), callbacks);
      }
    }

    /** The answer to a deletion of all revoked links */
    method DestroyAllRevokedDone(ghost id: RequestId, peer: Peer)
      requires RequestsInv(InFlight()) && id in flights && flights[id] == DeleteRevoked(peer)
      modifies this`deleteRevokedCallbacks, this`called, this`flights, this`calledFor
      ensures RequestsInv(InFlight()) && Book() == Entered(old(Book()), Answer(id, true))
      ensures called == old(called) + WaitingFor(old(InFlight()), DeleteRevoked(peer))
    {
      hide RequestsInv, Added;
      LandedKeepsInv(InFlight(), id);
      var callbacks := deleteRevokedCallbacks[peer];
      deleteRevokedCallbacks := deleteRevokedCallbacks - {peer};
      flights := flights - {id};
      calledFor := Added(calledFor, DeleteRevoked(peer), callbacks);
      called := called + callbacks;
    }

    /** Its failure has no handler: only the request is gone. */
    ghost method DestroyAllRevokedFailed(id: RequestId, peer: Peer)
      requires RequestsInv(InFlight()) && id in flights && flights[id] == DeleteRevoked(peer)
      modifies this`flights, this`stuck
      ensures RequestsInv(InFlight()) && Book() == Entered(old(Book()), Answer(id, false))
    {
      hide RequestsInv;
      FailedKeepsInv(InFlight(), id);
      flights, stuck := flights - {id}, stuck + {peer};
    }

    method LookupMyPermanent(peer: Peer) returns (permanent: Option<Link>)
      ensures permanent == Lookup(SliceOf(Cached(), peer))
    {
      if peer !in firstSlices {
        return None;
      }
      var links := firstSlices[peer].links;
      permanent := if links != [] && links[0].permanent && !links[0].revoked then Some(links[0]) else None;
    }

    method PrependMyToFirstSlice(peer: Peer, link: Link)
      modifies this`firstSlices, this`main
      ensures Cached() == Prepended(old(Cached()), peer, link)
    {
      if peer !in firstSlices {
        firstSlices := firstSlices[peer := Links([], 0)];
      }
      var slice := firstSlices[peer];
      var permanent := LookupMyPermanent(peer);
      var hadPermanent := permanent.Some?;
      if link.permanent && hadPermanent {
        slice := Links(slice.links[1..], if slice.count > 0 then slice.count - 1 else slice.count);
      }
      slice := slice.(count := slice.count + 1);
      if hadPermanent && !link.permanent {
        assert slice.links[..1] + [link] + slice.links[1..] == [slice.links[0], link] + slice.links[1..];
        slice := slice.(links := slice.links[..1] + [link] + slice.links[1..]);
      } else {
        slice := slice.(links := [link] + slice.links);
      }
      firstSlices := firstSlices[peer := slice];
      if link.permanent {
        main := main[peer := link.link];
      }
    }

    /** The edited link in the first slice of its peer */
    method ReplaceEdited(key: Key, link: Link)
      modifies this`firstSlices
      ensures Cached() == Edited(old(Cached()), key.peer, key.link, link)
    {
      hide IndexOf;
      if key.peer !in firstSlices {
        return;
      }
      var slice := firstSlices[key.peer];
      var j := 0;
      while j < |slice.links| && slice.links[j].link != key.link
        invariant 0 <= j <= |slice.links|
        invariant forall i | 0 <= i < j :: slice.links[i].link != key.link
      {
        j := j + 1;
      }
      IndexOfIs(slice.links, key.link, j);
      if j == |slice.links| {
        return;
      }
      if link.revoked && !slice.links[j].revoked {
        slice := Links(slice.links[..j] + slice.links[j + 1..], if slice.count > 0 then slice.count - 1 else slice.count);
      } else {
        slice := slice.(links := slice.links[j := link]);
      }
      firstSlices := firstSlices[key.peer := slice];
    }

    /** Takes the callbacks of an answered or failed edit. */
    method TakeEdits(ghost id: RequestId, key: Key, ghost ok: bool) returns (callbacks: seq<Callback>)
      requires RequestsInv(InFlight()) && id in flights && flights[id] == EditLink(key)
      modifies this`editCallbacks, this`flights, this`calledFor, this`dropped
      ensures RequestsInv(InFlight()) && Book() == Entered(old(Book()), Answer(id, ok))
      ensures callbacks == WaitingFor(old(InFlight()), EditLink(key))
    {
      hide RequestsInv, Added;
      LandedKeepsInv(InFlight(), id);
      callbacks := editCallbacks[key];
      editCallbacks := editCallbacks - {key};
      flights := flights - {id};
      if ok {
        calledFor := Added(calledFor, EditLink(key), callbacks);
      } else {
        dropped := Added(dropped, EditLink(key), callbacks);
      }
    }

    /** The answer to an edit; a replaced permanent link brings its successor along. */
    method EditDone(ghost id: RequestId, key: Key, adminIsSelf: bool, result: Option<Link>, replacement: Option<Link>)
      requires RequestsInv(InFlight()) && id in flights && flights[id] == EditLink(key)
      modifies this`firstSlices, this`main, this`editCallbacks, this`called, this`flights, this`calledFor, this`dropped
      ensures RequestsInv(InFlight()) && Book() == Entered(old(Book()), Answer(id, result.Some?))
      ensures result.None? ==> Cached() == old(Cached()) && called == old(called)
      ensures result.Some? ==>
                var edited := Edited(old(Cached()), key.peer, key.link, result.value);
                && called == old(called) + WaitingFor(old(InFlight()), EditLink(key))
                && Cached() == if adminIsSelf && replacement.Some? then Prepended(edited, key.peer, replacement.value)
                               else edited
    {
      hide RequestsInv, Edited, Prepended, WaitingFor, Entered;
      var callbacks := TakeEdits(id, key, result.Some?);
      if result.None? {
        return;
      }
      ReplaceEdited(key, result.value);
      called := called + callbacks;
      if replacement.Some? && adminIsSelf {
        PrependMyToFirstSlice(key.peer, replacement.value);
      }
    }

    /** The links of a list, without the one that is known as the permanent one */
    method ParseSlice(peer: Peer, invites: seq<Link>) returns (links: seq<Link>)
      ensures links == WithoutLink(invites, Lookup(SliceOf(Cached(), peer)))
    {
      var permanent := LookupMyPermanent(peer);
      links := [];
      for i := 0 to |invites|
        invariant links == WithoutLink(invites[..i], permanent)
      {
        assert invites[..i + 1] == invites[..i] + [invites[i]];
        WithoutLinkAppend(invites[..i], invites[i], permanent);
        if permanent.None? || invites[i].link != permanent.value.link {
          links := links + [invites[i]];
        }
      }
      assert invites[..|invites|] == invites;
    }

    method BringPermanentToFront(list: seq<Link>) returns (links: seq<Link>)
      ensures links == Fronted(list)
    {
      hide IndexOfLive;
      var i := 0;
      while i < |list| && !(list[i].permanent && !list[i].revoked)
        invariant 0 <= i <= |list|
        invariant forall k | 0 <= k < i :: !Live(list[k])
      {
        i := i + 1;
      }
      IndexOfLiveIs(list, i);
      links := list;
      if i < |list| && i != 0 {
        links := [list[i]] + list[..i] + list[i + 1..];
      } else if i == 0 && list != [] {
        assert [list[0]] + list[..0] + list[1..] == list;
      }
    }

    method RemovePermanent(list: seq<Link>) returns (links: seq<Link>)
      ensures links == WithoutLive(list)
    {
      links := [];
      for i := 0 to |list|
        invariant links == WithoutLive(list[..i])
      {
        assert list[..i + 1] == list[..i] + [list[i]];
        WithoutLiveAppend(list[..i], list[i]);
        if !(list[i].permanent && !list[i].revoked) {
          links := links + [list[i]];
        }
      }
      assert list[..|list|] == list;
    }

    /** The end of a request for the first slice */
    method TakeFirstSlice(ghost id: RequestId, peer: Peer)
      requires RequestsInv(InFlight()) && id in flights && flights[id] == FirstSlice(peer)
      modifies this`firstSliceRequests, this`flights, this`calledFor
      ensures RequestsInv(InFlight()) && Book() == Entered(old(Book()), Answer(id, true))
    {
      hide RequestsInv, Added;
      LandedKeepsInv(InFlight(), id);
      firstSliceRequests := firstSliceRequests - {peer};
      flights := flights - {id};
      calledFor := Added(calledFor, FirstSlice(peer), []);
    }

    /** The answer to `requestMyLinks` */
    method MyLinksDone(ghost id: RequestId, peer: Peer, invites: seq<Link>, count: int)
      requires RequestsInv(InFlight()) && id in flights && flights[id] == FirstSlice(peer)
      modifies this`firstSlices, this`main, this`firstSliceRequests, this`flights, this`calledFor
      ensures RequestsInv(InFlight()) && Book() == Entered(old(Book()), Answer(id, true))
      ensures Cached() == Loaded(old(Cached()), peer, invites, count)
    {
      hide RequestsInv, WithoutLink, WithoutLive, Fronted, Entered;
      TakeFirstSlice(id, peer);
      var slice := ParseSlice(peer, invites);
      var permanent := LookupMyPermanent(peer);
      if permanent.None? {
        slice := BringPermanentToFront(slice);
        firstSlices := firstSlices[peer := Links(slice, count)];
        permanent := LookupMyPermanent(peer);
        if permanent.Some? {
          main := main[peer := permanent.value.link];
        }
      } else {
        slice := RemovePermanent(slice);
        assert firstSlices[peer].links[..1] == [permanent.value];
        var existing := firstSlices[peer].links[..1] + slice;
        firstSlices := firstSlices[peer := Links(existing, Max(count, |existing|))];
      }
    }

    method SetMyPermanent(peer: Peer, link: Option<Link>)
      modifies this`firstSlices, this`main
      ensures Cached() == if link.None? || !link.value.permanent then old(Cached())
                          else PermanentSet(old(Cached()), peer, link.value)
    {
      if link.None? || !link.value.permanent {
        return;
      }
      if peer !in firstSlices {
        firstSlices := firstSlices[peer := Links([], 0)];
      }
      var slice := firstSlices[peer];
      var permanent := LookupMyPermanent(peer);
      if permanent.Some? {
        if permanent.value.link == link.value.link {
          if permanent.value.usage != link.value.usage {
            slice := slice.(links := slice.links[0 := permanent.value.(usage := link.value.usage)]);
            firstSlices := firstSlices[peer := slice];
          } else {
            assert slice.links[0 := permanent.value.(usage := link.value.usage)] == slice.links;
            assert firstSlices[peer := slice] == firstSlices;
          }
          return;
        }
        slice := Links(slice.links[1..], if slice.count > 0 then slice.count - 1 else slice.count);
      }
      firstSlices := firstSlices[peer := slice.(links := [link.value] + slice.links)];
      main := main[peer := link.value.link];
    }

    method ClearMyPermanent(peer: Peer)
      modifies this`firstSlices, this`main
      ensures Cached() == PermanentCleared(old(Cached()), peer)
    {
      var permanent := LookupMyPermanent(peer);
      if permanent.None? {
        return;
      }
      var slice := firstSlices[peer];
      firstSlices := firstSlices[peer := Links(slice.links[1..], if slice.count > 0 then slice.count - 1 else slice.count)];
      main := main[peer := ""];
    }

    method ApplyExternalUpdate(peer: Peer, updated: Link)
      modifies this`firstSlices
      ensures Cached() == Updated(old(Cached()), peer, updated)
    {
      if peer !in firstSlices {
        return;
      }
      var links := firstSlices[peer].links;
      ghost var was := links;
      ReplacedParts(was, updated);
      for i := 0 to |links|
        invariant |links| == |was|
        invariant forall k | 0 <= k < i :: links[k] == if was[k].link == updated.link then updated else was[k]
        invariant forall k | i <= k < |links| :: links[k] == was[k]
      {
        if links[i].link == updated.link {
          links := links[i := updated];
        }
      }
      assert links == Replaced(was, updated);
      firstSlices := firstSlices[peer := firstSlices[peer].(links := links)];
    }
  }
}
