/** The class `PeerSearch` as it changes its fields, against the transitions of the same name. */
module PeerSearchApi {
  import opened PeerSearch
  import opened Options

  class PeerSearchApi {
    const kind: Kind
    var query: string
    var callback: Option<Callback>
    var cache: map<string, Entry>
    var peerRequests: map<RequestId, string>
    var sponsoredRequests: map<RequestId, string>
    var lastId: RequestId
    var calls: seq<Call>
    var given: nat
    ghost var network: map<RequestId, Flight>
    ghost var sent: multiset<Flight>
    ghost var found: map<string, Found>
    ghost var ads: map<string, seq<Peer>>

    constructor (kind: Kind)
      ensures Value() == Start(kind)
    {
      this.kind := kind;
      query, callback, cache, peerRequests, sponsoredRequests := "", None, map[], map[], map[];
      lastId, calls, given, network, sent, found, ads := 0, [], 0, map[], multiset{}, map[], map[];
    }

    ghost function Value(): Search
      reads this
    {
      Search(kind, query, callback, cache, peerRequests, sponsoredRequests, lastId, network, sent, found, ads,
             calls, given, false)
    }

    method CallBack(result: Result)
      modifies this`callback, this`calls
      ensures Value() == Finish(old(Value()), result)
    {
      var onstack := callback;
      callback := None;
      if onstack.Some? {
        calls := calls + [Call(onstack.value, result)];
      }
    }

    method RequestPeers()
      modifies this`peerRequests, this`lastId, this`network, this`sent
      ensures Value() == SendPeers(old(Value()))
    {
      lastId := lastId + 1;
      network, sent := network[lastId := Peers(query)], sent + multiset{Peers(query)};
      peerRequests := peerRequests[lastId := query];
    }

    method RequestSponsored()
      modifies this`sponsoredRequests, this`lastId, this`network, this`sent
      ensures Value() == SendSponsored(old(Value()))
    {
      lastId := lastId + 1;
      network, sent := network[lastId := Sponsored(query)], sent + multiset{Sponsored(query)};
      sponsoredRequests := sponsoredRequests[lastId := query];
    }

    /** The part of `request` for a query that was not sent yet */
    method SendOut()
      requires query in cache && !cache[query].requested
      modifies this`cache, this`peerRequests, this`sponsoredRequests, this`lastId, this`network, this`sent
      ensures Value() == SendQuery(old(Value()))
    {
      hide SendPeers, SendSponsored;
      var entry := cache[query];
      entry := entry.(requested := true, result := entry.result.(query := query));
      if |query| < MIN_SPONSORED_QUERY_LENGTH {
        cache := cache[query := entry.(sponsoredReady := true)];
      } else {
        cache := cache[query := entry];
        if kind == WithSponsored {
          RequestSponsored();
        }
      }
      RequestPeers();
    }

    method Ask(converted: string, tag: bool, hasCallback: bool, cacheOnly: bool)
      modifies this
      ensures Value() == Request(old(Value()), converted, tag, hasCallback, cacheOnly)
    {
      hide SendQuery, Finish;
      query := converted;
      callback := if hasCallback then Some(given) else None;
      given := if hasCallback then given + 1 else given;
      if query == "" || tag {
        CallBack(EMPTY);
      } else {
        AskCache(cacheOnly);
      }
    }

    /** The rest of `request`, behind its check for an empty query or a tag */
    method AskCache(cacheOnly: bool)
      modifies this
      ensures Value() == RequestCached(old(Value()), cacheOnly)
    {
      hide SendQuery, Finish;
      if query !in cache {
        cache := cache[query := NEW_ENTRY];
      } else {
        assert cache[query := cache[query]] == cache;
      }
      if cache[query].peersReady && cache[query].sponsoredReady {
        CallBack(cache[query].result);
        return;
      } else if cacheOnly {
        callback := None;
        return;
      } else if cache[query].requested {
        return;
      }
      SendOut();
    }

    /** The answer or the failure of a search for peers; its query is known. */
    method FinishWithPeers(id: RequestId, my: seq<Peer>, peers: seq<Peer>)
      requires Inv(Value()) && id in network && network[id].Peers?
      modifies this
      ensures Value() == FinishPeers(old(Value()), id, Found(my, peers)) && Inv(Value())
    {
      hide Inv, Finish;
      FinishPeersKeepsInv(Value(), id, Found(my, peers));
      StillMissing(Value(), id);
      var asked := peerRequests[id];
      peerRequests := peerRequests - {id};
      network, found := network - {id}, found[asked := Found(my, peers)];
      var entry := if asked in cache then cache[asked] else NEW_ENTRY;
      entry := entry.(peersReady := true, result := entry.result.(my := my, peers := peers));
      cache := cache[asked := entry];
      if entry.sponsoredReady && query == asked {
        CallBack(entry.result);
      }
    }

    /** The answer or the failure of a request for sponsored peers; its query is known. */
    method FinishWithSponsored(id: RequestId, sponsored: seq<Peer>)
      requires Inv(Value()) && id in network && network[id].Sponsored?
      modifies this
      ensures Value() == FinishSponsored(old(Value()), id, sponsored) && Inv(Value())
    {
      hide Inv, Finish;
      FinishSponsoredKeepsInv(Value(), id, sponsored);
      StillMissing(Value(), id);
      var asked := sponsoredRequests[id];
      sponsoredRequests := sponsoredRequests - {id};
      network, ads := network - {id}, ads[asked := sponsored];
      var entry := if asked in cache then cache[asked] else NEW_ENTRY;
      entry := entry.(sponsoredReady := true, result := entry.result.(sponsored := sponsored));
      cache := cache[asked := entry];
      if entry.peersReady && query == asked {
        CallBack(entry.result);
      }
    }

    /** Cancels the requests of a map one by one. */
    method CancelAll(requests: map<RequestId, string>)
      modifies this`network
      ensures network == old(network) - requests.Keys
    {
      var left := requests.Keys;
      while left != {}
        invariant left <= requests.Keys
        invariant network == old(network) - (requests.Keys - left)
        decreases left
      {
        var id :| id in left;
        network := network - {id};
        left := left - {id};
        assert network == old(network) - (requests.Keys - left);
      }
    }

    method CancelRequests()
      modifies this`peerRequests, this`sponsoredRequests, this`network
      ensures peerRequests == map[] && sponsoredRequests == map[]
      ensures network == old(network) - old(peerRequests).Keys - old(sponsoredRequests).Keys
    {
      var peers := peerRequests;
      peerRequests := map[];
      CancelAll(peers);
      var sponsored := sponsoredRequests;
      sponsoredRequests := map[];
      CancelAll(sponsored);
    }

    method Forget()
      modifies this`query, this`callback, this`cache, this`sent, this`found, this`ads
      ensures query == "" && callback == None && cache == map[]
      ensures sent == multiset{} && found == map[] && ads == map[]
    {
      query, callback, cache := "", None, map[];
      sent, found, ads := multiset{}, map[], map[];
    }

    method ClearAll()
      modifies this
      ensures Value() == Clear(old(Value()))
    {
      Forget();
      CancelRequests();
    }
  }
}
