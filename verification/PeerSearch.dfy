/** `PeerSearch`: cached queries, each answered in two parts, and one callback for the latest query. */
module PeerSearch {
  import opened Options

  type RequestId = nat
  type Callback = nat
  type Peer = nat

  const MIN_SPONSORED_QUERY_LENGTH := 4

  datatype Kind = WithSponsored | JustPeers

  datatype Result = Result(query: string, my: seq<Peer>, peers: seq<Peer>, sponsored: seq<Peer>)

  const EMPTY := Result("", [], [], [])

  datatype Entry = Entry(result: Result, requested: bool, peersReady: bool, sponsoredReady: bool)

  const NEW_ENTRY := Entry(EMPTY, false, false, false)

  datatype Flight = Peers(query: string) | Sponsored(query: string)

  datatype Found = Found(my: seq<Peer>, peers: seq<Peer>)

  datatype Call = Call(callback: Callback, result: Result)

  /**
   * The fields of the class; the requests that the network will answer; what was sent and answered since the last
   * clearing; the calls made so far; the number of callbacks given so far; and whether an assertion failed.
   */
  datatype Search = Search(
    kind: Kind, query: string, callback: Option<Callback>, cache: map<string, Entry>,
    peerRequests: map<RequestId, string>, sponsoredRequests: map<RequestId, string>, lastId: RequestId,
    network: map<RequestId, Flight>, sent: multiset<Flight>,
    found: map<string, Found>, ads: map<string, seq<Peer>>,
    calls: seq<Call>, given: nat, crashed: bool)

  function Start(kind: Kind): Search {
    Search(kind, "", None, map[], map[], map[], 0, map[], multiset{}, map[], map[], [], 0, false)
  }

  // ----- The methods -----

  /** `finish`: the callback is taken away before it is called. */
  function Finish(s: Search, result: Result): Search {
    if s.callback.None? then s else s.(callback := None, calls := s.calls + [Call(s.callback.value, result)])
  }

  function SendPeers(s: Search): Search {
    s.(lastId := s.lastId + 1, network := s.network[s.lastId + 1 := Peers(s.query)],
       sent := s.sent + multiset{Peers(s.query)}, peerRequests := s.peerRequests[s.lastId + 1 := s.query])
  }

  function SendSponsored(s: Search): Search {
    s.(lastId := s.lastId + 1, network := s.network[s.lastId + 1 := Sponsored(s.query)],
       sent := s.sent + multiset{Sponsored(s.query)}, sponsoredRequests := s.sponsoredRequests[s.lastId + 1 := s.query])
  }

  function EntryOf(s: Search, query: string): Entry { if query in s.cache then s.cache[query] else NEW_ENTRY }

  /** A query that was not sent yet */
  function SendQuery(s: Search): Search {
    var short := |s.query| < MIN_SPONSORED_QUERY_LENGTH;
    var entry := EntryOf(s, s.query);
    var marked := s.(cache := s.cache[s.query :=
      Entry(entry.result.(query := s.query), true, entry.peersReady, entry.sponsoredReady || short)]);
    SendPeers(if !short && s.kind == WithSponsored then SendSponsored(marked) else marked)
  }

  /** The head of `request`: a callback, if there is one, gets the next number. */
  function Asked(s: Search, query: string, hasCallback: bool): Search {
    s.(query := query, callback := if hasCallback then Some(s.given) else None,
       given := if hasCallback then s.given + 1 else s.given)
  }

  /** `request` with a converted query; `tag` tells of a hashtag or a cashtag. */
  function Request(s: Search, query: string, tag: bool, hasCallback: bool, cacheOnly: bool): Search {
    var asked := Asked(s, query, hasCallback);
    if query == "" || tag then Finish(asked, EMPTY) else RequestCached(asked, cacheOnly)
  }

  function RequestCached(s: Search, cacheOnly: bool): Search {
    var entry := EntryOf(s, s.query);
    var there := s.(cache := s.cache[s.query := entry]);
    if entry.peersReady && entry.sponsoredReady then Finish(there, entry.result)
    else if cacheOnly then there.(callback := None)
    else if entry.requested then there
    else SendQuery(there)
  }

  /** `finishPeers` and `finishSponsored`, with the assertion that the request is known */
  function FinishPeers(s: Search, id: RequestId, answer: Found): Search
    requires id in s.network
  {
    var landed := s.(network := s.network - {id});
    if id !in s.peerRequests then s.(crashed := true)
    else
      var query := s.peerRequests[id];
      var was := EntryOf(s, query);
      var entry := was.(peersReady := true, result := was.result.(my := answer.my, peers := answer.peers));
      var stored := landed.(peerRequests := s.peerRequests - {id}, cache := s.cache[query := entry],
                            found := s.found[query := answer]);
      if entry.sponsoredReady && s.query == query then Finish(stored, entry.result) else stored
  }

  function FinishSponsored(s: Search, id: RequestId, ads: seq<Peer>): Search
    requires id in s.network
  {
    var landed := s.(network := s.network - {id});
    if id !in s.sponsoredRequests then s.(crashed := true)
    else
      var query := s.sponsoredRequests[id];
      var was := EntryOf(s, query);
      var entry := was.(sponsoredReady := true, result := was.result.(sponsored := ads));
      var stored := landed.(sponsoredRequests := s.sponsoredRequests - {id}, cache := s.cache[query := entry],
                            ads := s.ads[query := ads]);
      if entry.peersReady && s.query == query then Finish(stored, entry.result) else stored
  }

  /** `clear` cancels what is known of the network. */
  function Clear(s: Search): Search {
    s.(query := "", callback := None, cache := map[], peerRequests := map[], sponsoredRequests := map[],
       network := s.network - s.peerRequests.Keys - s.sponsoredRequests.Keys,
       sent := multiset{}, found := map[], ads := map[])
  }

  datatype Event =
    | Ask(query: string, tag: bool, hasCallback: bool, cacheOnly: bool)
    | PeersAnswer(id: RequestId, found: Found)
    | SponsoredAnswer(id: RequestId, ads: seq<Peer>)
    | Forget

  predicate Enabled(s: Search, e: Event) {
    match e
    case PeersAnswer(id, _) => id in s.network && s.network[id].Peers?
    case SponsoredAnswer(id, _) => id in s.network && s.network[id].Sponsored?
    case _ => true
  }

  function Step(s: Search, e: Event): Search
    requires Enabled(s, e)
  {
    match e
    case Ask(query, tag, hasCallback, cacheOnly) => Request(s, query, tag, hasCallback, cacheOnly)
    case PeersAnswer(id, found) => FinishPeers(s, id, found)
    case SponsoredAnswer(id, ads) => FinishSponsored(s, id, ads)
    case Forget => Clear(s)
  }

  // ----- The invariant -----

  predicate NeedsAds(s: Search, query: string) { |query| >= MIN_SPONSORED_QUERY_LENGTH && s.kind == WithSponsored }

  /** What the network will answer is what the class knows, and each part of a query was sent once if it was requested. */
  predicate FlightOk(s: Search, id: RequestId) {
    && (id in s.network ==> id <= s.lastId)
    && (id in s.peerRequests <==> id in s.network && s.network[id].Peers?)
    && (id in s.sponsoredRequests <==> id in s.network && s.network[id].Sponsored?)
    && (id in s.network ==>
          var query := s.network[id].query;
          && query in s.cache && s.cache[query].requested
          && match s.network[id]
             case Peers(_) => s.peerRequests[id] == query && !s.cache[query].peersReady
             case Sponsored(_) => s.sponsoredRequests[id] == query && !s.cache[query].sponsoredReady
                                  && NeedsAds(s, query))
  }

  /** A cache entry holds the answers to its query, as far as they came. */
  predicate EntryOk(s: Search, query: string) {
    var entry := EntryOf(s, query);
    && (entry.requested ==> entry.result.query == query)
    && (entry.peersReady <==> query in s.found)
    && (entry.peersReady ==> entry.requested && Found(entry.result.my, entry.result.peers) == s.found[query])
    && (entry.sponsoredReady ==>
          && entry.requested
          && entry.result.sponsored == if query in s.ads then s.ads[query] else [])
    && (entry.sponsoredReady && query !in s.ads ==> |query| < MIN_SPONSORED_QUERY_LENGTH)
    && (query in s.ads ==> entry.sponsoredReady && NeedsAds(s, query))
    && (!entry.sponsoredReady ==> entry.result.sponsored == [])
    && (entry.requested && |query| < MIN_SPONSORED_QUERY_LENGTH ==> entry.sponsoredReady)
    && s.sent[Peers(query)] == (if entry.requested then 1 else 0)
    && s.sent[Sponsored(query)] == (if entry.requested && NeedsAds(s, query) then 1 else 0)
  }

  /** The callbacks that were called are different ones, and the one that waits is not among them. */
  ghost predicate CallsOk(s: Search) {
    && (s.callback.Some? ==> s.callback.value < s.given)
    && (forall c | c in s.calls :: c.callback < s.given && s.callback != Some(c.callback))
    && (forall i, j | 0 <= i < j < |s.calls| :: s.calls[i].callback != s.calls[j].callback)
  }

  /** No part of a query is on its way twice. */
  ghost predicate OneFlightEach(s: Search) {
    forall i, j | i in s.network && j in s.network && s.network[i] == s.network[j] :: i == j
  }

  ghost predicate Inv(s: Search) {
    && (forall id :: FlightOk(s, id)) && (forall query :: EntryOk(s, query))
    && OneFlightEach(s) && CallsOk(s) && !s.crashed
  }

  /** The invariant without the callbacks does not look at them. */
  lemma CallsApart(s: Search, t: Search)
    requires Inv(s) && t == s.(query := t.query, callback := t.callback, calls := t.calls, given := t.given)
    requires CallsOk(t)
    ensures Inv(t)
  {
    hide CallsOk;
    forall id
      ensures FlightOk(t, id)
    {
      assert FlightOk(s, id);
    }
    forall query
      ensures EntryOk(t, query)
    {
      assert EntryOk(s, query);
    }
  }

  lemma FinishKeepsCalls(s: Search, result: Result)
    requires CallsOk(s)
    ensures CallsOk(Finish(s, result))
  {}

  lemma FinishKeepsInv(s: Search, result: Result)
    requires Inv(s)
    ensures Inv(Finish(s, result))
  {
    hide FlightOk, EntryOk, CallsOk;
    FinishKeepsCalls(s, result);
    CallsApart(s, Finish(s, result));
  }

  lemma AskedKeepsInv(s: Search, query: string, hasCallback: bool)
    requires Inv(s)
    ensures Inv(Asked(s, query, hasCallback))
  {
    hide FlightOk, EntryOk;
    CallsApart(s, Asked(s, query, hasCallback));
  }

  lemma ForgetCallback(s: Search)
    requires Inv(s)
    ensures Inv(s.(callback := None))
  {
    hide FlightOk, EntryOk;
    CallsApart(s, s.(callback := None));
  }

  /** An entry that was only looked up is there, and new. */
  lemma TouchKeepsInv(s: Search, query: string)
    requires Inv(s)
    ensures Inv(s.(cache := s.cache[query := EntryOf(s, query)]))
  {
    hide CallsOk;
    var t := s.(cache := s.cache[query := EntryOf(s, query)]);
    forall id
      ensures FlightOk(t, id)
    {
      assert FlightOk(s, id);
    }
    forall other
      ensures EntryOk(t, other)
    {
      assert EntryOk(s, other);
    }
    assert CallsOk(t) by { SameCalls(s, t); }
  }

  lemma SameCalls(s: Search, t: Search)
    requires CallsOk(s) && t.callback == s.callback && t.calls == s.calls && t.given == s.given
    ensures CallsOk(t)
  {}

  // ----- A query that is sent -----

  /** A query that was not requested is not on its way. */
  lemma NotOnItsWay(s: Search, id: RequestId)
    requires Inv(s) && !EntryOf(s, s.query).requested
    ensures id in s.network ==> s.network[id].query != s.query && id <= s.lastId
  {
    hide EntryOk, CallsOk;
    assert FlightOk(s, id);
  }

  /** The first id behind the old ones carries the sponsored request, if there is one, and the last one the peers. */
  lemma SendQueryNetwork(s: Search, id: RequestId)
    requires Inv(s) && !EntryOf(s, s.query).requested
    ensures var t, ads := SendQuery(s), NeedsAds(s, s.query);
            && t.lastId == s.lastId + (if ads then 2 else 1)
            && (id <= s.lastId ==> (id in t.network <==> id in s.network)
                                   && (id in t.peerRequests <==> id in s.peerRequests)
                                   && (id in t.sponsoredRequests <==> id in s.sponsoredRequests))
            && (id in s.network ==> t.network[id] == s.network[id])
            && (id in s.peerRequests ==> id in t.peerRequests && t.peerRequests[id] == s.peerRequests[id])
            && (id in s.sponsoredRequests
                ==> id in t.sponsoredRequests && t.sponsoredRequests[id] == s.sponsoredRequests[id])
            && (id == t.lastId ==> id in t.network && t.network[id] == Peers(s.query) && id in t.peerRequests
                                   && t.peerRequests[id] == s.query && id !in t.sponsoredRequests)
            && (id == s.lastId + 1 && ads
                ==> id in t.network && t.network[id] == Sponsored(s.query) && id in t.sponsoredRequests
                    && t.sponsoredRequests[id] == s.query && id !in t.peerRequests)
            && (id > t.lastId ==> id !in t.network && id !in t.peerRequests && id !in t.sponsoredRequests)
  {
    hide EntryOk, CallsOk, OneFlightEach;
    assert FlightOk(s, id) && FlightOk(s, s.lastId + 1) && FlightOk(s, s.lastId + 2);
  }

  lemma SendQueryCache(s: Search, query: string)
    requires !EntryOf(s, s.query).requested
    ensures var t, entry := SendQuery(s), EntryOf(s, query);
            && EntryOf(t, query)
               == (if query != s.query then entry
                   else Entry(entry.result.(query := query), true, entry.peersReady,
                              entry.sponsoredReady || |query| < MIN_SPONSORED_QUERY_LENGTH))
            && (query in t.cache <==> query in s.cache || query == s.query)
            && t.kind == s.kind && t.query == s.query && t.found == s.found && t.ads == s.ads
            && t.callback == s.callback && t.calls == s.calls && t.given == s.given && t.crashed == s.crashed
  {
    hide SendQuery;
    SendQueryEntries(s, query);
    SendQueryFields(s);
  }

  lemma SendQueryEntries(s: Search, query: string)
    requires !EntryOf(s, s.query).requested
    ensures var t, entry := SendQuery(s), EntryOf(s, query);
            && EntryOf(t, query)
               == (if query != s.query then entry
                   else Entry(entry.result.(query := query), true, entry.peersReady,
                              entry.sponsoredReady || |query| < MIN_SPONSORED_QUERY_LENGTH))
            && (query in t.cache <==> query in s.cache || query == s.query)
  {}

  lemma SendQueryFields(s: Search)
    ensures var t := SendQuery(s);
            && t.kind == s.kind && t.query == s.query && t.found == s.found && t.ads == s.ads
            && t.callback == s.callback && t.calls == s.calls && t.given == s.given && t.crashed == s.crashed
  {
    hide EntryOf;
  }

  lemma SendQuerySent(s: Search, query: string)
    ensures var t := SendQuery(s);
            && t.sent[Peers(query)] == s.sent[Peers(query)] + (if query == s.query then 1 else 0)
            && t.sent[Sponsored(query)]
               == s.sent[Sponsored(query)] + (if query == s.query && NeedsAds(s, query) then 1 else 0)
  {}

  lemma SendQueryFlight(s: Search, id: RequestId)
    requires Inv(s) && !EntryOf(s, s.query).requested
    ensures FlightOk(SendQuery(s), id)
  {
    hide CallsOk, SendQuery, OneFlightEach;
    NotOnItsWay(s, id);
    SendQueryNetwork(s, id);
    SendQueryCache(s, s.query);
    assert EntryOk(s, s.query) && FlightOk(s, id);
    if id in s.network {
      SendQueryCache(s, s.network[id].query);
    }
  }

  lemma SendQueryEntry(s: Search, query: string)
    requires Inv(s) && !EntryOf(s, s.query).requested
    ensures EntryOk(SendQuery(s), query)
  {
    hide CallsOk, FlightOk, SendQuery, OneFlightEach;
    SendQueryCache(s, query);
    SendQuerySent(s, query);
    assert EntryOk(s, query);
  }

  lemma SendQueryKeepsInv(s: Search)
    requires Inv(s) && !EntryOf(s, s.query).requested
    ensures Inv(SendQuery(s))
  {
    hide FlightOk, EntryOk, CallsOk, SendQuery;
    forall id
      ensures FlightOk(SendQuery(s), id)
    {
      SendQueryFlight(s, id);
    }
    forall query
      ensures EntryOk(SendQuery(s), query)
    {
      SendQueryEntry(s, query);
    }
    var t := SendQuery(s);
    forall i, j | i in t.network && j in t.network && t.network[i] == t.network[j]
      ensures i == j
    {
      NotOnItsWay(s, i);
      NotOnItsWay(s, j);
      SendQueryNetwork(s, i);
      SendQueryNetwork(s, j);
    }
    SendQueryCache(s, s.query);
    SameCalls(s, t);
  }

  lemma RequestKeepsInv(s: Search, query: string, tag: bool, hasCallback: bool, cacheOnly: bool)
    requires Inv(s)
    ensures Inv(Request(s, query, tag, hasCallback, cacheOnly))
  {
    hide Inv, Finish, SendQuery, Asked;
    var asked := Asked(s, query, hasCallback);
    AskedKeepsInv(s, query, hasCallback);
    if query == "" || tag {
      FinishKeepsInv(asked, EMPTY);
    } else {
      AskedFields(s, query, hasCallback);
      TouchKeepsInv(asked, query);
      var there := asked.(cache := s.cache[query := EntryOf(s, query)]);
      FinishKeepsInv(there, EntryOf(s, query).result);
      ForgetCallback(there);
      if !EntryOf(s, query).requested {
        SendQueryKeepsInv(there);
      }
    }
  }

  lemma AskedFields(s: Search, query: string, hasCallback: bool)
    ensures var t := Asked(s, query, hasCallback);
            t.cache == s.cache && t.query == query && t.network == s.network && t.kind == s.kind
  {}

  // ----- Answers -----

  /** The state with an answer stored, before the callback is called */
  function PeersStored(s: Search, id: RequestId, answer: Found): Search
    requires id in s.peerRequests
  {
    var query := s.peerRequests[id];
    var was := EntryOf(s, query);
    s.(network := s.network - {id}, peerRequests := s.peerRequests - {id}, found := s.found[query := answer],
       cache := s.cache[query := was.(peersReady := true, result := was.result.(my := answer.my, peers := answer.peers))])
  }

  function SponsoredStored(s: Search, id: RequestId, ads: seq<Peer>): Search
    requires id in s.sponsoredRequests
  {
    var query := s.sponsoredRequests[id];
    var was := EntryOf(s, query);
    s.(network := s.network - {id}, sponsoredRequests := s.sponsoredRequests - {id}, ads := s.ads[query := ads],
       cache := s.cache[query := was.(sponsoredReady := true, result := was.result.(sponsored := ads))])
  }

  lemma PeersStoredKeepsInv(s: Search, id: RequestId, answer: Found)
    requires Inv(s) && id in s.network && s.network[id].Peers?
    ensures id in s.peerRequests && Inv(PeersStored(s, id, answer))
  {
    hide CallsOk;
    assert FlightOk(s, id);
    var t, query := PeersStored(s, id, answer), s.network[id].query;
    forall other
      ensures FlightOk(t, other)
    {
      assert FlightOk(s, other);
    }
    forall q
      ensures EntryOk(t, q)
    {
      assert EntryOk(s, q);
    }
    SameCalls(s, t);
  }

  lemma SponsoredStoredKeepsInv(s: Search, id: RequestId, ads: seq<Peer>)
    requires Inv(s) && id in s.network && s.network[id].Sponsored?
    ensures id in s.sponsoredRequests && Inv(SponsoredStored(s, id, ads))
  {
    hide CallsOk;
    assert FlightOk(s, id);
    var t, query := SponsoredStored(s, id, ads), s.network[id].query;
    forall other
      ensures FlightOk(t, other)
    {
      assert FlightOk(s, other);
    }
    forall q
      ensures EntryOk(t, q)
    {
      assert EntryOk(s, q);
    }
    SameCalls(s, t);
  }

  lemma FinishPeersKeepsInv(s: Search, id: RequestId, answer: Found)
    requires Inv(s) && id in s.network && s.network[id].Peers?
    ensures Inv(FinishPeers(s, id, answer))
  {
    hide Inv, Finish;
    PeersStoredKeepsInv(s, id, answer);
    var stored := PeersStored(s, id, answer);
    FinishKeepsInv(stored, EntryOf(stored, s.peerRequests[id]).result);
  }

  lemma FinishSponsoredKeepsInv(s: Search, id: RequestId, ads: seq<Peer>)
    requires Inv(s) && id in s.network && s.network[id].Sponsored?
    ensures Inv(FinishSponsored(s, id, ads))
  {
    hide Inv, Finish;
    SponsoredStoredKeepsInv(s, id, ads);
    var stored := SponsoredStored(s, id, ads);
    FinishKeepsInv(stored, EntryOf(stored, s.sponsoredRequests[id]).result);
  }

  lemma ClearKeepsInv(s: Search)
    requires Inv(s)
    ensures Inv(Clear(s)) && Clear(s).network == map[]
  {
    var t := Clear(s);
    forall id
      ensures id !in t.network && FlightOk(t, id)
    {
      assert FlightOk(s, id);
    }
  }

  lemma StepKeepsInv(s: Search, e: Event)
    requires Inv(s) && Enabled(s, e)
    ensures Inv(Step(s, e))
  {
    hide Inv, Request, FinishPeers, FinishSponsored, Clear;
    match e
    case Ask(query, tag, hasCallback, cacheOnly) => RequestKeepsInv(s, query, tag, hasCallback, cacheOnly);
    case PeersAnswer(id, found) => FinishPeersKeepsInv(s, id, found);
    case SponsoredAnswer(id, ads) => FinishSponsoredKeepsInv(s, id, ads);
    case Forget => ClearKeepsInv(s);
  }

  predicate AllEnabled(s: Search, run: seq<Event>)
    decreases |run|
  {
    run == [] || (Enabled(s, run[0]) && AllEnabled(Step(s, run[0]), run[1..]))
  }

  function Run(s: Search, run: seq<Event>): Search
    requires AllEnabled(s, run)
    decreases |run|
  {
    if run == [] then s else Run(Step(s, run[0]), run[1..])
  }

  lemma {:induction false} RunKeepsInv(s: Search, run: seq<Event>)
    requires Inv(s) && AllEnabled(s, run)
    ensures Inv(Run(s, run))
    decreases |run|
  {
    hide Inv, Step, Enabled;
    if run != [] {
      StepKeepsInv(s, run[0]);
      RunKeepsInv(Step(s, run[0]), run[1..]);
    }
  }

  lemma StartInv(kind: Kind)
    ensures Inv(Start(kind))
  {
    var s := Start(kind);
    assert forall id :: FlightOk(s, id);
    assert forall query :: EntryOk(s, query);
  }

  /** From the start: the assertions hold, no callback is called twice, and each part of a query is sent at most once. */
  lemma SearchIsRight(kind: Kind, run: seq<Event>)
    requires AllEnabled(Start(kind), run)
    ensures var s := Run(Start(kind), run);
            && !s.crashed
            && (forall i, j | 0 <= i < |s.calls| && 0 <= j < |s.calls|
                  && s.calls[i].callback == s.calls[j].callback :: i == j)
            && forall query :: s.sent[Peers(query)] <= 1 && s.sent[Sponsored(query)] <= 1
  {
    hide FlightOk;
    StartInv(kind);
    RunKeepsInv(Start(kind), run);
    var s := Run(Start(kind), run);
    forall query
      ensures s.sent[Peers(query)] <= 1 && s.sent[Sponsored(query)] <= 1
    {
      assert EntryOk(s, query);
    }
  }

  // ----- What is delivered -----

  /** The whole answer to a query, when it is there */
  predicate Answered(s: Search, query: string) {
    query in s.found && (|query| >= MIN_SPONSORED_QUERY_LENGTH ==> query in s.ads)
  }

  function AnswerTo(s: Search, query: string): Result
    requires query in s.found
  {
    Result(query, s.found[query].my, s.found[query].peers, if query in s.ads then s.ads[query] else [])
  }

  lemma ReadyIsAnswered(s: Search, query: string)
    requires Inv(s)
    ensures var entry := EntryOf(s, query);
            && (entry.peersReady && entry.sponsoredReady <==> Answered(s, query))
            && (Answered(s, query) ==> entry.result == AnswerTo(s, query))
  {
    hide FlightOk, CallsOk, OneFlightEach;
    assert EntryOk(s, query);
  }

  /** One call more, of the callback that waited or came with the request, with the result */
  predicate Calls(s: Search, t: Search, result: Result) {
    && |t.calls| == |s.calls| + 1
    && t.calls == s.calls + [Call(t.calls[|s.calls|].callback, result)]
    && (s.callback == Some(t.calls[|s.calls|].callback) || t.calls[|s.calls|].callback == s.given)
  }

  /**
   * A step calls at most one callback: with nothing, for an empty query or a tag, or with exactly the answer to the
   * latest query.
   */
  lemma StepDelivers(s: Search, e: Event)
    requires Inv(s) && Enabled(s, e)
    ensures var t := Step(s, e);
            || t.calls == s.calls
            || (e.Ask? && (e.query == "" || e.tag) && Calls(s, t, EMPTY))
            || (Answered(t, t.query) && Calls(s, t, AnswerTo(t, t.query)))
  {
    hide Inv, Answered, AnswerTo, Request, FinishPeers, FinishSponsored, Calls;
    StepKeepsInv(s, e);
    ReadyIsAnswered(Step(s, e), Step(s, e).query);
    match e
    case Ask(query, tag, hasCallback, cacheOnly) => AskDelivers(s, query, tag, hasCallback, cacheOnly);
    case PeersAnswer(id, found) => PeersDeliver(s, id, found);
    case SponsoredAnswer(id, ads) => SponsoredDeliver(s, id, ads);
    case Forget =>
  }

  predicate Ready(s: Search, query: string) { EntryOf(s, query).peersReady && EntryOf(s, query).sponsoredReady }

  lemma AskDelivers(s: Search, query: string, tag: bool, hasCallback: bool, cacheOnly: bool)
    ensures var t := Request(s, query, tag, hasCallback, cacheOnly);
            || t.calls == s.calls
            || ((query == "" || tag) && Calls(s, t, EMPTY))
            || (Ready(t, t.query) && Calls(s, t, EntryOf(t, t.query).result))
  {
    hide SendQuery;
    SendQueryFields(Asked(s, query, hasCallback).(cache := s.cache[query := EntryOf(s, query)]));
  }

  lemma PeersDeliver(s: Search, id: RequestId, found: Found)
    requires id in s.network
    ensures var t := FinishPeers(s, id, found);
            t.calls == s.calls || (Ready(t, t.query) && Calls(s, t, EntryOf(t, t.query).result))
  {}

  lemma SponsoredDeliver(s: Search, id: RequestId, ads: seq<Peer>)
    requires id in s.network
    ensures var t := FinishSponsored(s, id, ads);
            t.calls == s.calls || (Ready(t, t.query) && Calls(s, t, EntryOf(t, t.query).result))
  {}

  /** A complete entry stays what it is until the cache is cleared. */
  lemma CompleteStays(s: Search, e: Event, query: string)
    requires Inv(s) && Enabled(s, e) && !e.Forget?
    requires EntryOf(s, query).peersReady && EntryOf(s, query).sponsoredReady
    ensures EntryOf(Step(s, e), query) == EntryOf(s, query)
  {
    hide Inv, SendQuery, Request, FinishPeers, FinishSponsored;
    CompleteIsRequested(s, query);
    match e
    case Ask(asked, tag, hasCallback, cacheOnly) => AskKeepsOthers(s, asked, tag, hasCallback, cacheOnly, query);
    case PeersAnswer(id, found) =>
      StillMissing(s, id);
      PeersKeepOthers(s, id, found, query);
    case SponsoredAnswer(id, ads) =>
      StillMissing(s, id);
      SponsoredKeepsOthers(s, id, ads, query);
  }

  lemma AskKeepsOthers(s: Search, asked: string, tag: bool, hasCallback: bool, cacheOnly: bool, query: string)
    requires EntryOf(s, query).requested
    ensures EntryOf(Request(s, asked, tag, hasCallback, cacheOnly), query) == EntryOf(s, query)
  {
    hide SendQuery;
    var there := Asked(s, asked, hasCallback).(cache := s.cache[asked := EntryOf(s, asked)]);
    if !EntryOf(s, asked).requested {
      SendQueryCache(there, query);
    }
  }

  lemma PeersKeepOthers(s: Search, id: RequestId, found: Found, query: string)
    requires id in s.network && id in s.peerRequests && s.peerRequests[id] != query
    ensures EntryOf(FinishPeers(s, id, found), query) == EntryOf(s, query)
  {}

  lemma SponsoredKeepsOthers(s: Search, id: RequestId, ads: seq<Peer>, query: string)
    requires id in s.network && id in s.sponsoredRequests && s.sponsoredRequests[id] != query
    ensures EntryOf(FinishSponsored(s, id, ads), query) == EntryOf(s, query)
  {}

  lemma CompleteIsRequested(s: Search, query: string)
    requires Inv(s)
    ensures EntryOf(s, query).peersReady ==> EntryOf(s, query).requested
  {
    hide FlightOk, CallsOk, OneFlightEach;
    assert EntryOk(s, query);
  }

  /** What is on its way is still missing. */
  lemma StillMissing(s: Search, id: RequestId)
    requires Inv(s) && id in s.network
    ensures var query := s.network[id].query;
            match s.network[id]
            case Peers(_) => !EntryOf(s, query).peersReady && id in s.peerRequests && s.peerRequests[id] == query
            case Sponsored(_) =>
              !EntryOf(s, query).sponsoredReady && id in s.sponsoredRequests && s.sponsoredRequests[id] == query
  {
    hide EntryOk, CallsOk, OneFlightEach;
    assert FlightOk(s, id);
  }

  /** Without sponsored requests a query of four characters or more is never answered, at no point of a run. */
  lemma LongQueriesNeedAds(s: Search, query: string)
    requires Inv(s) && s.kind == JustPeers && |query| >= MIN_SPONSORED_QUERY_LENGTH
    ensures !EntryOf(s, query).sponsoredReady && !Answered(s, query)
  {
    hide FlightOk, CallsOk, OneFlightEach;
    assert EntryOk(s, query);
  }

  // ----- Which callback is called, and when -----

  /** The callback is called with the result, and does not wait any more. */
  predicate Delivered(s: Search, t: Search, callback: Callback, result: Result) {
    t.calls == s.calls + [Call(callback, result)] && t.callback == None
  }

  predicate Undelivered(s: Search, t: Search, waiting: Option<Callback>) {
    t.calls == s.calls && t.callback == waiting
  }

  /**
   * A callback that comes with a request is called at once for an empty query or a tag, and for a query of which
   * everything is known; it is forgotten if only the cache is asked, and waits otherwise. An earlier one that waited is
   * forgotten in any case.
   */
  lemma AskCalls(s: Search, query: string, tag: bool, cacheOnly: bool)
    requires Inv(s)
    ensures var t := Request(s, query, tag, true, cacheOnly);
            && t.query == query && t.given == s.given + 1
            && (if query == "" || tag then Delivered(s, t, s.given, EMPTY)
                else if Answered(s, query) then Delivered(s, t, s.given, AnswerTo(s, query))
                else if cacheOnly then Undelivered(s, t, None)
                else Undelivered(s, t, Some(s.given)))
  {
    hide Inv, RequestCached, Answered, AnswerTo;
    ReadyIsAnswered(s, query);
    CacheCalls(Asked(s, query, true), cacheOnly);
  }

  /** A request without a callback calls nothing. */
  lemma AskWithoutCallback(s: Search, query: string, tag: bool, cacheOnly: bool)
    ensures var t := Request(s, query, tag, false, cacheOnly);
            t.query == query && t.given == s.given && Undelivered(s, t, None)
  {
    hide RequestCached;
    CacheCalls(Asked(s, query, false), cacheOnly);
  }

  lemma CacheCalls(s: Search, cacheOnly: bool)
    ensures var t := RequestCached(s, cacheOnly);
            && t.query == s.query && t.given == s.given
            && (if Ready(s, s.query) then
                  match s.callback
                  case Some(callback) => Delivered(s, t, callback, EntryOf(s, s.query).result)
                  case None => Undelivered(s, t, None)
                else Undelivered(s, t, if cacheOnly then None else s.callback))
  {
    hide SendQuery;
    SendQueryFields(s.(cache := s.cache[s.query := EntryOf(s, s.query)]));
  }

  /** A query that was not asked for is sent, with the sponsored part if it has one, unless only the cache is asked. */
  lemma AskSends(s: Search, query: string, hasCallback: bool, cacheOnly: bool)
    requires Inv(s) && query != "" && !EntryOf(s, query).requested
    ensures var t := Request(s, query, false, hasCallback, cacheOnly);
            && t.sent[Peers(query)] == (if cacheOnly then 0 else 1)
            && t.sent[Sponsored(query)] == (if !cacheOnly && NeedsAds(s, query) then 1 else 0)
            && (cacheOnly ==> t.network == s.network)
            && (!cacheOnly ==> Peers(query) in t.network.Values && EntryOf(t, query).requested)
            && (!cacheOnly && NeedsAds(s, query) ==> Sponsored(query) in t.network.Values)
  {
    hide SendQuery, CallsOk, OneFlightEach, FlightOk;
    assert EntryOk(s, query);
    var there := Asked(s, query, hasCallback).(cache := s.cache[query := EntryOf(s, query)]);
    AskedKeepsInv(s, query, hasCallback);
    TouchKeepsInv(Asked(s, query, hasCallback), query);
    SendQuerySent(there, query);
    SendQueryEntries(there, query);
    SendQueryNetwork(there, SendQuery(there).lastId);
    SendQueryNetwork(there, s.lastId + 1);
  }

  /** An answer calls the waiting callback exactly if it completes the latest query. */
  lemma PeersAnswerCalls(s: Search, id: RequestId, found: Found, callback: Callback)
    requires Inv(s) && id in s.network && s.network[id].Peers? && s.callback == Some(callback)
    ensures var t := FinishPeers(s, id, found);
            if s.network[id].query == s.query && Answered(t, s.query)
            then Delivered(s, t, callback, AnswerTo(t, s.query)) else Undelivered(s, t, Some(callback))
  {
    hide Inv, Answered, AnswerTo;
    StillMissing(s, id);
    FinishPeersKeepsInv(s, id, found);
    ReadyIsAnswered(FinishPeers(s, id, found), s.query);
  }

  lemma SponsoredAnswerCalls(s: Search, id: RequestId, ads: seq<Peer>, callback: Callback)
    requires Inv(s) && id in s.network && s.network[id].Sponsored? && s.callback == Some(callback)
    ensures var t := FinishSponsored(s, id, ads);
            if s.network[id].query == s.query && Answered(t, s.query)
            then Delivered(s, t, callback, AnswerTo(t, s.query)) else Undelivered(s, t, Some(callback))
  {
    hide Inv, Answered, AnswerTo;
    StillMissing(s, id);
    FinishSponsoredKeepsInv(s, id, ads);
    ReadyIsAnswered(FinishSponsored(s, id, ads), s.query);
  }

  /** Clearing forgets the query, its callback and every answer, and calls nothing. */
  lemma ClearIs(s: Search)
    requires Inv(s)
    ensures var t := Clear(s);
            t == Start(s.kind).(lastId := s.lastId, calls := s.calls, given := s.given)
  {
    ClearKeepsInv(s);
  }

  /** A search without sponsored peers, from the request to the call of its callback with what was found */
  lemma ShortQueryIsCalled(query: string, found: Found)
    requires 0 < |query| < 4
    ensures var asked := Request(Start(JustPeers), query, false, true, false);
            && 1 in asked.network && asked.network[1] == Peers(query) && asked.calls == []
            && FinishPeers(asked, 1, found).calls == [Call(0, Result(query, found.my, found.peers, []))]
  {
    var start := Start(JustPeers);
    StartInv(JustPeers);
    AskCalls(start, query, false, false);
    RequestKeepsInv(start, query, false, true, false);
    var there := Asked(start, query, true).(cache := start.cache[query := EntryOf(start, query)]);
    AskedKeepsInv(start, query, true);
    TouchKeepsInv(Asked(start, query, true), query);
    SendQueryNetwork(there, 1);
    SendQueryFields(there);
    SendQueryEntries(there, query);
    var asked := Request(start, query, false, true, false);
    hide Inv, Request, SendQuery;
    PeersAnswerCalls(asked, 1, found, 0);
    PeersAnswerFound(asked, 1, found);
  }

  lemma PeersAnswerFound(s: Search, id: RequestId, found: Found)
    requires Inv(s) && id in s.network && s.network[id].Peers?
    ensures var t, query := FinishPeers(s, id, found), s.network[id].query;
            && t.found == s.found[query := found] && t.ads == s.ads && t.network == s.network - {id}
            && (|query| < MIN_SPONSORED_QUERY_LENGTH ==> Answered(t, query))
  {
    hide Inv, Finish;
    StillMissing(s, id);
    FinishKeepsAnswers(PeersStored(s, id, found), EntryOf(PeersStored(s, id, found), s.peerRequests[id]).result);
  }

  /** An answer is kept, for its query alone, and its request is done. */
  lemma SponsoredAnswerFound(s: Search, id: RequestId, ads: seq<Peer>)
    requires Inv(s) && id in s.network && s.network[id].Sponsored?
    ensures var t, query := FinishSponsored(s, id, ads), s.network[id].query;
            && t.ads == s.ads[query := ads] && t.found == s.found && t.network == s.network - {id}
            && (query in s.found ==> Answered(t, query) && AnswerTo(t, query).sponsored == ads)
  {
    hide Inv, Finish;
    StillMissing(s, id);
    FinishKeepsAnswers(SponsoredStored(s, id, ads), EntryOf(SponsoredStored(s, id, ads), s.sponsoredRequests[id]).result);
  }

  lemma FinishKeepsAnswers(s: Search, result: Result)
    ensures var t := Finish(s, result); t.found == s.found && t.ads == s.ads && t.network == s.network
  {}

  // ----- Which queries are answered -----

  /** What a requested query still misses is on its way, unless it is never asked for. */
  ghost predicate WaitOk(s: Search, query: string) {
    EntryOf(s, query).requested ==>
      && (EntryOf(s, query).peersReady || Peers(query) in s.network.Values)
      && (NeedsAds(s, query) ==> EntryOf(s, query).sponsoredReady || Sponsored(query) in s.network.Values)
  }

  /** A callback waits for a query that was requested and is not complete. */
  ghost predicate CallbackOk(s: Search) {
    s.callback.Some? ==> EntryOf(s, s.query).requested && !Ready(s, s.query)
  }

  ghost predicate Waits(s: Search) { CallbackOk(s) && forall query :: WaitOk(s, query) }

  lemma FinishWaits(s: Search, result: Result)
    requires forall query :: WaitOk(s, query)
    ensures Waits(Finish(s, result))
  {
    var t := Finish(s, result);
    forall query
      ensures WaitOk(t, query)
    {
      assert WaitOk(s, query);
    }
  }

  lemma SameWaits(s: Search, t: Search, query: string)
    requires WaitOk(s, query) && EntryOf(t, query) == EntryOf(s, query) && t.network == s.network && t.kind == s.kind
    ensures WaitOk(t, query)
  {}

  lemma SendQueryWaits(s: Search, query: string)
    requires Inv(s) && !EntryOf(s, s.query).requested && WaitOk(s, query)
    ensures WaitOk(SendQuery(s), query) && CallbackOk(SendQuery(s))
  {
    hide SendQuery, FlightOk, CallsOk, OneFlightEach;
    var t := SendQuery(s);
    SendQueryCache(s, query);
    SendQueryCache(s, s.query);
    SendQueryNetwork(s, t.lastId);
    SendQueryNetwork(s, s.lastId + 1);
    assert EntryOk(s, s.query);
    forall flight | flight in s.network.Values
      ensures flight in t.network.Values
    {
      var id :| id in s.network && s.network[id] == flight;
      NotOnItsWay(s, id);
      SendQueryNetwork(s, id);
    }
  }

  lemma RequestWaits(s: Search, query: string, tag: bool, hasCallback: bool, cacheOnly: bool)
    requires Inv(s) && Waits(s)
    ensures Waits(Request(s, query, tag, hasCallback, cacheOnly))
  {
    hide Inv, WaitOk, CallbackOk, SendQuery, Finish, Asked, Ready;
    var asked := Asked(s, query, hasCallback);
    AskedFields(s, query, hasCallback);
    AskedKeepsInv(s, query, hasCallback);
    SameEntriesWait(s, asked);
    if query == "" || tag {
      FinishWaits(asked, EMPTY);
    } else {
      var entry := EntryOf(s, query);
      var there := asked.(cache := s.cache[query := entry]);
      TouchKeepsInv(asked, query);
      SameEntriesWait(asked, there);
      SameEntriesWait(asked, there.(callback := None));
      NoCallbackWaits(there.(callback := None));
      FinishWaits(there, entry.result);
      if entry.requested {
        RepeatedWaits(there);
      } else {
        AllSendQueryWaits(there);
      }
    }
  }

  lemma SameEntriesWait(s: Search, t: Search)
    requires forall query :: WaitOk(s, query)
    requires (forall query :: EntryOf(t, query) == EntryOf(s, query)) && t.network == s.network && t.kind == s.kind
    ensures forall query :: WaitOk(t, query)
  {
    hide WaitOk;
    forall query
      ensures WaitOk(t, query)
    {
      SameWaits(s, t, query);
    }
  }

  lemma NoCallbackWaits(s: Search)
    ensures s.callback.None? ==> CallbackOk(s)
  {}

  lemma RepeatedWaits(s: Search)
    ensures EntryOf(s, s.query).requested && !(EntryOf(s, s.query).peersReady && EntryOf(s, s.query).sponsoredReady)
        ==> CallbackOk(s)
  {}

  lemma AllSendQueryWaits(s: Search)
    requires Inv(s) && !EntryOf(s, s.query).requested && forall query :: WaitOk(s, query)
    ensures Waits(SendQuery(s))
  {
    hide Inv, WaitOk, CallbackOk, SendQuery;
    forall query
      ensures WaitOk(SendQuery(s), query)
    {
      SendQueryWaits(s, query);
    }
    SendQueryWaits(s, s.query);
  }

  lemma FinishPeersWaits(s: Search, id: RequestId, answer: Found)
    requires Inv(s) && Waits(s) && id in s.network && s.network[id].Peers?
    ensures Waits(FinishPeers(s, id, answer))
  {
    hide Inv, Finish;
    StillMissing(s, id);
    var t, query := PeersStored(s, id, answer), s.network[id].query;
    forall other
      ensures WaitOk(t, other)
    {
      LandedElsewhere(s, id, other);
      assert WaitOk(s, other);
    }
    FinishWaits(t, EntryOf(t, query).result);
  }

  lemma FinishSponsoredWaits(s: Search, id: RequestId, ads: seq<Peer>)
    requires Inv(s) && Waits(s) && id in s.network && s.network[id].Sponsored?
    ensures Waits(FinishSponsored(s, id, ads))
  {
    hide Inv, Finish;
    StillMissing(s, id);
    var t, query := SponsoredStored(s, id, ads), s.network[id].query;
    forall other
      ensures WaitOk(t, other)
    {
      LandedElsewhere(s, id, other);
      assert WaitOk(s, other);
    }
    FinishWaits(t, EntryOf(t, query).result);
  }

  /** Another flight stays on its way. */
  lemma LandedElsewhere(s: Search, id: RequestId, query: string)
    requires id in s.network
    ensures forall flight | flight in s.network.Values && flight != s.network[id] ::
              flight in (s.network - {id}).Values
  {
    forall flight | flight in s.network.Values && flight != s.network[id]
      ensures flight in (s.network - {id}).Values
    {
      var other :| other in s.network && s.network[other] == flight;
      assert other in s.network - {id};
    }
  }

  lemma StepWaits(s: Search, e: Event)
    requires Inv(s) && Waits(s) && Enabled(s, e)
    ensures Waits(Step(s, e)) && Step(s, e).kind == s.kind
  {
    hide Inv, Waits, SendQuery, Request, FinishPeers, FinishSponsored;
    StepKind(s, e);
    match e
    case Ask(query, tag, hasCallback, cacheOnly) => RequestWaits(s, query, tag, hasCallback, cacheOnly);
    case PeersAnswer(id, found) => FinishPeersWaits(s, id, found);
    case SponsoredAnswer(id, ads) => FinishSponsoredWaits(s, id, ads);
    case Forget => ClearWaits(s);
  }

  lemma StepKind(s: Search, e: Event)
    requires Enabled(s, e)
    ensures Step(s, e).kind == s.kind
  {
    hide SendQuery, Finish;
    match e
    case Ask(query, tag, hasCallback, _) =>
      var asked := Asked(s, query, hasCallback);
      var there := asked.(cache := s.cache[query := EntryOf(s, query)]);
      FinishKind(asked, EMPTY);
      FinishKind(there, EntryOf(s, query).result);
      SendQueryFields(there);
    case PeersAnswer(id, found) =>
      if id in s.peerRequests {
        var stored := PeersStored(s, id, found);
        FinishKind(stored, EntryOf(stored, s.peerRequests[id]).result);
      }
    case SponsoredAnswer(id, ads) =>
      if id in s.sponsoredRequests {
        var stored := SponsoredStored(s, id, ads);
        FinishKind(stored, EntryOf(stored, s.sponsoredRequests[id]).result);
      }
    case Forget =>
  }

  lemma FinishKind(s: Search, result: Result)
    ensures Finish(s, result).kind == s.kind
  {}

  lemma ClearWaits(s: Search)
    ensures Waits(Clear(s))
  {}

  lemma {:induction false} RunWaits(s: Search, run: seq<Event>)
    requires Inv(s) && Waits(s) && AllEnabled(s, run)
    ensures Inv(Run(s, run)) && Waits(Run(s, run)) && Run(s, run).kind == s.kind
    decreases |run|
  {
    hide Inv, Waits, Step, Enabled;
    if run != [] {
      StepKeepsInv(s, run[0]);
      StepWaits(s, run[0]);
      RunWaits(Step(s, run[0]), run[1..]);
    }
  }

  /** Nothing of the query is on its way. */
  ghost predicate QuietFor(s: Search, query: string) {
    Peers(query) !in s.network.Values && Sponsored(query) !in s.network.Values
  }

  /**
   * From the start: a requested query of which nothing is on its way is answered exactly if it is shorter than four
   * characters or the class asks for sponsored peers. A callback waits then for a query that is never answered.
   */
  lemma AnsweredIff(kind: Kind, run: seq<Event>, query: string)
    requires AllEnabled(Start(kind), run)
    requires QuietFor(Run(Start(kind), run), query) && EntryOf(Run(Start(kind), run), query).requested
    ensures var s := Run(Start(kind), run);
            && (Answered(s, query) <==> |query| < MIN_SPONSORED_QUERY_LENGTH || kind == WithSponsored)
            && (s.query == query && s.callback.Some? ==> |query| >= MIN_SPONSORED_QUERY_LENGTH && kind == JustPeers)
  {
    hide FlightOk, CallsOk, OneFlightEach, Run;
    StartInv(kind);
    RunWaits(Start(kind), run);
    var s := Run(Start(kind), run);
    assert WaitOk(s, query) && EntryOk(s, query);
    ReadyIsAnswered(s, query);
  }

  /** A run that ends with nothing on its way and the callback not called */
  lemma LongQueryWaits(query: string)
    requires |query| >= 4
    ensures var run := [Ask(query, false, true, false), PeersAnswer(1, Found([], []))];
            && AllEnabled(Start(JustPeers), run)
            && var s := Run(Start(JustPeers), run);
               s.network == map[] && s.callback == Some(0) && s.calls == [] && !Answered(s, query)
  {
    hide Step, Enabled;
    LongQueryAsked(query);
    LongQueryFound(query);
    assert [PeersAnswer(1, Found([], []))][1..] == [];
    var run := [Ask(query, false, true, false), PeersAnswer(1, Found([], []))];
    assert run[1..] == [PeersAnswer(1, Found([], []))];
  }

  /** The query is on its way, with a callback. */
  function LongQuerySent(query: string): Search {
    var asked := Start(JustPeers).(query := query, callback := Some(0), given := 1, lastId := 1);
    asked.(cache := map[query := NEW_ENTRY.(requested := true, result := EMPTY.(query := query))],
           network := map[1 := Peers(query)], peerRequests := map[1 := query], sent := multiset{Peers(query)})
  }

  lemma LongQueryAsked(query: string)
    requires |query| >= MIN_SPONSORED_QUERY_LENGTH
    ensures var ask := Ask(query, false, true, false);
            Enabled(Start(JustPeers), ask) && Step(Start(JustPeers), ask) == LongQuerySent(query)
  {
    hide SendQuery;
    var asked := Start(JustPeers).(query := query, callback := Some(0), given := 1);
    assert map[query := NEW_ENTRY] == map[][query := NEW_ENTRY];
    LongQueryGoesOut(asked.(cache := map[query := NEW_ENTRY]));
  }

  lemma LongQueryGoesOut(s: Search)
    requires |s.query| >= MIN_SPONSORED_QUERY_LENGTH
    requires s == Start(JustPeers).(query := s.query, callback := Some(0), given := 1, cache := map[s.query := NEW_ENTRY])
    ensures SendQuery(s) == LongQuerySent(s.query)
  {
    var t, u := SendQuery(s), LongQuerySent(s.query);
    assert t.cache == u.cache;
    assert t.network == u.network && t.peerRequests == u.peerRequests && t.sent == u.sent;
  }

  lemma LongQueryFound(query: string)
    requires |query| >= MIN_SPONSORED_QUERY_LENGTH
    ensures var s, answer := LongQuerySent(query), PeersAnswer(1, Found([], []));
            && Enabled(s, answer)
            && var t := Step(s, answer);
               t.network == map[] && t.callback == Some(0) && t.calls == [] && !Answered(t, query)
  {
    var s := LongQuerySent(query);
    assert s.network - {1} == map[];
  }
}
