/** The batching of web-page requests in `ApiWrap`, with its temporary negative request ids. */
module WebPages {
  import opened Options

  type Page = nat
  type MsgId = int
  type RequestId = int

  /** Where the message that shows a page lies: its channel, if any, and its id. */
  datatype Item = Item(channel: Option<nat>, id: MsgId)

  /** The fields of `WebPageData` used here. */
  datatype PageState = PageState(pendingTill: int, failed: bool)

  /** One pair of `_webPagesPending`. */
  datatype Entry = Entry(page: Page, requestId: RequestId)

  /** What one pass reads besides the pending map: the clock, the pages and the message lookup. */
  datatype World = World(now: int, pages: map<Page, PageState>, items: map<Page, Item>)

  function Till(pages: map<Page, PageState>, page: Page): int {
    if page in pages then pages[page].pendingTill else 0
  }

  /** Newly due, with a message to ask for. */
  predicate Due(w: World, e: Entry) {
    e.requestId <= 0 && Till(w.pages, e.page) <= w.now && e.page in w.items
  }

  /** The due pages of one group, `None` for messages outside channels: what its request must ask for. */
  function DueIds(w: World, pending: seq<Entry>, group: Option<nat>): seq<MsgId> {
    if pending == [] then []
    else
      var e := pending[|pending| - 1];
      DueIds(w, pending[..|pending| - 1], group)
      + if Due(w, e) && w.items[e.page].channel == group then [w.items[e.page].id] else []
  }

  lemma DueIdsNext(w: World, pending: seq<Entry>, i: nat, group: Option<nat>)
    requires i < |pending|
    ensures DueIds(w, pending[..i + 1], group)
         == DueIds(w, pending[..i], group)
            + if Due(w, pending[i]) && w.items[pending[i].page].channel == group then [w.items[pending[i].page].id] else []
  {
    assert pending[..i + 1][..i] == pending[..i];
  }

  lemma {:induction false} DueIdsNotEmpty(w: World, pending: seq<Entry>, i: nat)
    requires i < |pending| && Due(w, pending[i])
    ensures DueIds(w, pending, w.items[pending[i].page].channel) != []
  {
    if i < |pending| - 1 {
      DueIdsNotEmpty(w, pending[..|pending| - 1], i);
    }
  }

  /** The direct assignment: each newly due page gets the request of its own group. */
  predicate Direct(w: World, pending: seq<Entry>, requests: map<Option<nat>, RequestId>, result: seq<Entry>) {
    && |result| == |pending|
    && forall i | 0 <= i < |pending| ::
         result[i] == if Due(w, pending[i]) && w.items[pending[i].page].channel in requests
                      then Entry(pending[i].page, requests[w.items[pending[i].page].channel])
                      else pending[i]
  }

  /** The shortest wait of a page that is not due, bounded by `INT_MAX`. */
  const INT_MAX := 2147483647

  function ShortestWait(w: World, pending: seq<Entry>): int {
    if pending == [] then INT_MAX
    else
      var e := pending[|pending| - 1];
      var rest := ShortestWait(w, pending[..|pending| - 1]);
      if e.requestId <= 0 && Till(w.pages, e.page) > w.now && Till(w.pages, e.page) - w.now < rest
      then Till(w.pages, e.page) - w.now
      else rest
  }

  /** The batch of a reply leaves the map ... */
  function Remaining(pending: seq<Entry>, req: RequestId): seq<Entry> {
    if pending == [] then []
    else (if pending[0].requestId == req then [] else [pending[0]]) + Remaining(pending[1..], req)
  }

  function PagesOf(pending: seq<Entry>, req: RequestId): set<Page> {
    set e | e in pending && e.requestId == req :: e.page
  }

  /** ... and its pages that are still waiting are marked as failed. */
  function Settled(pages: map<Page, PageState>, batch: set<Page>): map<Page, PageState> {
    map p | p in pages :: if p in batch && pages[p].pendingTill > 0 then PageState(0, true) else pages[p]
  }

  ghost predicate Distinct(pending: seq<Entry>) {
    forall i, j | 0 <= i < j < |pending| :: pending[i].page != pending[j].page
  }

  /** One sent request: its group, and what it asks for. */
  datatype Sent = Sent(group: Option<nat>, ids: seq<MsgId>)

  datatype IndexAndIds = IndexAndIds(index: nat, ids: seq<MsgId>)

  // ----- The first pass -----

  /** The temporary id of a page: -1, or -index - 2 for a channel; other entries keep theirs. */
  function Temporary(w: World, e: Entry, byChannel: map<nat, IndexAndIds>): RequestId {
    if !Due(w, e) then e.requestId
    else
      match w.items[e.page].channel
      case None => -1
      case Some(c) => if c in byChannel then -2 - byChannel[c].index else 0
  }

  ghost predicate Indexed(byChannel: map<nat, IndexAndIds>) {
    && (forall c | c in byChannel :: byChannel[c].index < |byChannel|)
    && (forall c, d | c in byChannel && d in byChannel && c != d :: byChannel[c].index != byChannel[d].index)
  }

  // The state of the first pass before entry `i`, in two parts.
  ghost predicate Marked(w: World, before: seq<Entry>, i: nat, pending: seq<Entry>, byChannel: map<nat, IndexAndIds>) {
    && i <= |before| == |pending|
    && (forall j | i <= j < |before| :: pending[j] == before[j])
    && (forall j | 0 <= j < i :: pending[j] == Entry(before[j].page, Temporary(w, before[j], byChannel)))
    && (forall j | 0 <= j < i && Due(w, before[j]) && w.items[before[j].page].channel.Some? ::
          w.items[before[j].page].channel.value in byChannel)
  }

  ghost predicate Collected(w: World, before: seq<Entry>, i: nat, ids: seq<MsgId>, byChannel: map<nat, IndexAndIds>) {
    && i <= |before|
    && ids == DueIds(w, before[..i], None)
    && (forall c :: c in byChannel <==> DueIds(w, before[..i], Some(c)) != [])
    && (forall c | c in byChannel :: byChannel[c].ids == DueIds(w, before[..i], Some(c)))
    && Indexed(byChannel)
  }

  /** `auto channelMap = idsByChannel.find(channel)` and the insertion or the push behind it. */
  function Push(byChannel: map<nat, IndexAndIds>, channel: nat, id: MsgId): map<nat, IndexAndIds> {
    if channel in byChannel
    then byChannel[channel := IndexAndIds(byChannel[channel].index, byChannel[channel].ids + [id])]
    else byChannel[channel := IndexAndIds(|byChannel|, [id])]
  }

  lemma KnownChannelKeepsSize(byChannel: map<nat, IndexAndIds>, channel: nat, pushed: IndexAndIds)
    requires channel in byChannel
    ensures |byChannel[channel := pushed]| == |byChannel|
  {
    assert byChannel[channel := pushed].Keys == byChannel.Keys;
  }

  lemma NewChannelAddsOne(byChannel: map<nat, IndexAndIds>, channel: nat, pushed: IndexAndIds)
    requires channel !in byChannel
    ensures |byChannel[channel := pushed]| == |byChannel| + 1
  {
    assert byChannel[channel := pushed].Keys == byChannel.Keys + {channel};
  }

  lemma PushIndexed(byChannel: map<nat, IndexAndIds>, channel: nat, id: MsgId)
    requires Indexed(byChannel)
    ensures Indexed(Push(byChannel, channel, id))
  {
    if channel in byChannel {
      PushKnownIndexed(byChannel, channel, IndexAndIds(byChannel[channel].index, byChannel[channel].ids + [id]));
    } else {
      PushNewIndexed(byChannel, channel, IndexAndIds(|byChannel|, [id]));
    }
  }

  lemma PushKnownIndexed(byChannel: map<nat, IndexAndIds>, channel: nat, pushed: IndexAndIds)
    requires Indexed(byChannel) && channel in byChannel && pushed.index == byChannel[channel].index
    ensures Indexed(byChannel[channel := pushed])
  {
    KnownChannelKeepsSize(byChannel, channel, pushed);
    var next := byChannel[channel := pushed];
    assert forall c | c in next :: c in byChannel && next[c].index == byChannel[c].index;
  }

  lemma PushNewIndexed(byChannel: map<nat, IndexAndIds>, channel: nat, pushed: IndexAndIds)
    requires Indexed(byChannel) && channel !in byChannel && pushed.index == |byChannel|
    ensures Indexed(byChannel[channel := pushed])
  {
    NewChannelAddsOne(byChannel, channel, pushed);
    var next := byChannel[channel := pushed];
    assert forall c | c in next && c != channel :: c in byChannel && next[c] == byChannel[c];
  }

  lemma CollectNext(w: World, before: seq<Entry>, i: nat, ids: seq<MsgId>, byChannel: map<nat, IndexAndIds>)
    requires i < |before| && Collected(w, before, i, ids, byChannel)
    ensures var e := before[i];
            if !Due(w, e) then Collected(w, before, i + 1, ids, byChannel)
            else
              var item := w.items[e.page];
              match item.channel
              case None => Collected(w, before, i + 1, ids + [item.id], byChannel)
              case Some(c) => Collected(w, before, i + 1, ids, Push(byChannel, c, item.id))
  {
    hide DueIds, Indexed;
    forall g ensures DueIds(w, before[..i + 1], g)
                  == DueIds(w, before[..i], g)
                     + if Due(w, before[i]) && w.items[before[i].page].channel == g then [w.items[before[i].page].id]
                       else []
    {
      DueIdsNext(w, before, i, g);
    }
    if Due(w, before[i]) && w.items[before[i].page].channel.Some? {
      PushIndexed(byChannel, w.items[before[i].page].channel.value, w.items[before[i].page].id);
    }
  }

  /** Inserting a channel or adding to it keeps the temporary ids given before. */
  lemma MarkNext(w: World, before: seq<Entry>, i: nat, pending: seq<Entry>, byChannel: map<nat, IndexAndIds>)
    requires i < |before| && Marked(w, before, i, pending, byChannel)
    ensures var e := before[i];
            if !Due(w, e) then Marked(w, before, i + 1, pending, byChannel)
            else
              var item := w.items[e.page];
              match item.channel
              case None => Marked(w, before, i + 1, pending[i := Entry(e.page, -1)], byChannel)
              case Some(c) =>
                var next := Push(byChannel, c, item.id);
                Marked(w, before, i + 1, pending[i := Entry(e.page, -2 - next[c].index)], next)
  {
    assert pending[i] == before[i];
  }

  // ----- Sending and the second pass -----

  /** The request ids as the sending part records them, with the channels `left` still to come. */
  ghost predicate Recorded(requests: map<Option<nat>, RequestId>, ids: seq<MsgId>, byChannel: map<nat, IndexAndIds>,
                           requestId: RequestId, reqsByIndex: seq<RequestId>, left: set<nat>)
  {
    && |reqsByIndex| == |byChannel| && Indexed(byChannel)
    && (None in requests <==> ids != [])
    && (None in requests ==> requests[None] == requestId)
    && (forall c :: Some(c) in requests <==> c in byChannel && c !in left)
    && (forall c | c in byChannel && Some(c) in requests :: reqsByIndex[byChannel[c].index] == requests[Some(c)])
  }

  lemma RecordNext(requests: map<Option<nat>, RequestId>, ids: seq<MsgId>, byChannel: map<nat, IndexAndIds>,
                   requestId: RequestId, reqsByIndex: seq<RequestId>, left: set<nat>, channel: nat, sentId: RequestId)
    requires Recorded(requests, ids, byChannel, requestId, reqsByIndex, left) && channel in left && channel in byChannel
    ensures Recorded(requests[Some(channel) := sentId], ids, byChannel, requestId,
                     reqsByIndex[byChannel[channel].index := sentId], left - {channel})
  {}

  /** What the second pass makes of an id. */
  function Decoded(temporary: RequestId, requestId: RequestId, reqsByIndex: seq<RequestId>): RequestId
    requires temporary < -1 ==> -temporary - 2 < |reqsByIndex|
  {
    if temporary >= 0 then temporary
    else if temporary == -1 then requestId
    else reqsByIndex[-temporary - 2]
  }

  /** Every decoded index is in range. */
  lemma IndicesAreInRange(w: World, before: seq<Entry>, pending: seq<Entry>, byChannel: map<nat, IndexAndIds>, i: nat)
    requires Marked(w, before, |before|, pending, byChannel) && Indexed(byChannel) && i < |pending|
    requires forall e | e in before :: e.requestId >= 0
    ensures pending[i].requestId < -1 ==> -pending[i].requestId - 2 < |byChannel|
  {
    assert before[i] in before;
  }

  /** Decoding the temporary ids is the direct assignment. */
  lemma DecodingIsDirect(w: World, before: seq<Entry>, pending: seq<Entry>, ids: seq<MsgId>,
                         byChannel: map<nat, IndexAndIds>, requests: map<Option<nat>, RequestId>,
                         requestId: RequestId, reqsByIndex: seq<RequestId>, result: seq<Entry>)
    requires Marked(w, before, |before|, pending, byChannel)
    requires Recorded(requests, ids, byChannel, requestId, reqsByIndex, {})
    requires ids == DueIds(w, before, None)
    requires forall e | e in before :: e.requestId >= 0
    requires |result| == |pending|
    requires forall i | 0 <= i < |pending| ::
               && (pending[i].requestId < -1 ==> -pending[i].requestId - 2 < |reqsByIndex|)
               && result[i] == Entry(pending[i].page, Decoded(pending[i].requestId, requestId, reqsByIndex))
    ensures Direct(w, before, requests, result)
    ensures forall i | 0 <= i < |before| && Due(w, before[i]) :: w.items[before[i].page].channel in requests
  {
    forall i | 0 <= i < |before|
      ensures Due(w, before[i]) ==> w.items[before[i].page].channel in requests
      ensures result[i] == if Due(w, before[i]) && w.items[before[i].page].channel in requests
                           then Entry(before[i].page, requests[w.items[before[i].page].channel])
                           else before[i]
    {
      assert before[i] in before;
      if Due(w, before[i]) {
        DueIdsNotEmpty(w, before, i);
      }
    }
  }

  function GroupIds(ids: seq<MsgId>, byChannel: map<nat, IndexAndIds>, group: Option<nat>): seq<MsgId> {
    if group.None? then ids else if group.value in byChannel then byChannel[group.value].ids else []
  }

  /** The requests sent in one pass are fresh, different, and each asks for exactly its group. */
  ghost predicate Issued(sent0: map<RequestId, Sent>, last0: RequestId, requests: map<Option<nat>, RequestId>,
                         ids: seq<MsgId>, byChannel: map<nat, IndexAndIds>,
                         sent: map<RequestId, Sent>, last: RequestId)
  {
    && last >= last0
    && (forall g | g in requests :: last0 < requests[g] <= last)
    && (forall g, h | g in requests && h in requests && g != h :: requests[g] != requests[h])
    && (forall r :: r in sent <==> r in sent0 || exists g :: g in requests && requests[g] == r)
    && (forall r | r in sent0 && r in sent :: sent[r] == sent0[r])
    && (forall g | g in requests && requests[g] in sent :: sent[requests[g]] == Sent(g, GroupIds(ids, byChannel, g)))
  }

  lemma IssueNext(sent0: map<RequestId, Sent>, last0: RequestId, requests: map<Option<nat>, RequestId>,
                  ids: seq<MsgId>, byChannel: map<nat, IndexAndIds>,
                  sent: map<RequestId, Sent>, last: RequestId, group: Option<nat>)
    requires Issued(sent0, last0, requests, ids, byChannel, sent, last) && group !in requests
    requires forall r | r in sent0 :: r <= last0
    ensures Issued(sent0, last0, requests[group := last + 1], ids, byChannel,
                   sent[last + 1 := Sent(group, GroupIds(ids, byChannel, group))], last + 1)
  {
    hide GroupIds;
    var requests' := requests[group := last + 1];
    var sent' := sent[last + 1 := Sent(group, GroupIds(ids, byChannel, group))];
    assert requests'[group] == last + 1;
    forall r ensures r in sent' <==> r in sent0 || exists g :: g in requests' && requests'[g] == r {
      if exists g :: g in requests && requests[g] == r {
        var g :| g in requests && requests[g] == r;
        assert g in requests' && requests'[g] == r;
      }
    }
  }

  /**
   * A page without a request whose time has come and that has a message is asked for: by a fresh request, for the channel
   * of the message and with its id. Every other entry stays what it is.
   */
  predicate AskedOrKept(pendingTill: int, now: int, items: map<Page, Item>, before: Entry, after: Entry,
                        sent0: map<RequestId, Sent>, sent: map<RequestId, Sent>) {
    if before.requestId == 0 && pendingTill <= now && before.page in items then
      var item := items[before.page];
      && after.page == before.page && after.requestId > 0
      && after.requestId !in sent0 && after.requestId in sent
      && sent[after.requestId].group == item.channel && item.id in sent[after.requestId].ids
    else after == before
  }

  lemma {:induction false} DueIdIsIn(w: World, pending: seq<Entry>, i: nat)
    requires i < |pending| && Due(w, pending[i])
    ensures w.items[pending[i].page].id in DueIds(w, pending, w.items[pending[i].page].channel)
  {
    if i < |pending| - 1 {
      DueIdIsIn(w, pending[..|pending| - 1], i);
    }
  }

  lemma DirectAsks(w: World, before: seq<Entry>, requests: map<Option<nat>, RequestId>, result: seq<Entry>,
                   sent0: map<RequestId, Sent>, sent: map<RequestId, Sent>)
    requires Direct(w, before, requests, result)
    requires forall e | e in before :: e.requestId >= 0 && e.page in w.pages
    requires forall i | 0 <= i < |before| && Due(w, before[i]) :: w.items[before[i].page].channel in requests
    requires forall g | g in requests ::
               && requests[g] > 0 && requests[g] !in sent0 && requests[g] in sent
               && sent[requests[g]] == Sent(g, DueIds(w, before, g))
    ensures forall i | 0 <= i < |before| ::
              && before[i].page in w.pages
              && AskedOrKept(w.pages[before[i].page].pendingTill, w.now, w.items, before[i], result[i], sent0, sent)
  {
    hide DueIds;
    forall i | 0 <= i < |before|
      ensures before[i].page in w.pages
      ensures AskedOrKept(w.pages[before[i].page].pendingTill, w.now, w.items, before[i], result[i], sent0, sent)
    {
      assert before[i] in before;
      if Due(w, before[i]) {
        DueIdIsIn(w, before, i);
      }
    }
  }

  /** The page of the entry has no request, and its time has not come. */
  predicate Waits(e: Entry, pages: map<Page, PageState>, now: int) {
    e.requestId == 0 && e.page in pages && pages[e.page].pendingTill > now
  }

  /** The timer is set for the first of the pages that still wait, at most for a day, and left alone without such pages. */
  ghost predicate TimerIsSet(pending: seq<Entry>, pages: map<Page, PageState>, now: int, before: Option<int>,
                             after: Option<int>) {
    if forall e | e in pending && Waits(e, pages, now) :: pages[e.page].pendingTill - now >= INT_MAX then after == before
    else
      && after.Some? && after.value <= 86400 * 1000
      && (forall e | e in pending && Waits(e, pages, now) :: after.value <= (pages[e.page].pendingTill - now) * 1000)
      && (after.value == 86400 * 1000
          || exists e :: e in pending && Waits(e, pages, now) && after.value == (pages[e.page].pendingTill - now) * 1000)
  }

  lemma {:induction false} ShortestWaitIs(w: World, pending: seq<Entry>)
    requires forall e | e in pending :: e.requestId >= 0 && e.page in w.pages
    ensures var m := ShortestWait(w, pending);
            && m <= INT_MAX
            && (forall e | e in pending && Waits(e, w.pages, w.now) :: m <= w.pages[e.page].pendingTill - w.now)
            && (m == INT_MAX
                || exists e :: e in pending && Waits(e, w.pages, w.now) && m == w.pages[e.page].pendingTill - w.now)
  {
    if pending != [] {
      var front, last := pending[..|pending| - 1], pending[|pending| - 1];
      assert pending == front + [last];
      ShortestWaitIs(w, front);
    }
  }

  lemma TimerOfShortestWait(w: World, pending: seq<Entry>, before: Option<int>, after: Option<int>)
    requires forall e | e in pending :: e.requestId >= 0 && e.page in w.pages
    requires var m := ShortestWait(w, pending);
             after == if m < INT_MAX then Some((if m < 86400 then m else 86400) * 1000) else before
    ensures TimerIsSet(pending, w.pages, w.now, before, after)
  {
    hide ShortestWait;
    ShortestWaitIs(w, pending);
  }

  /** The part of `ApiWrap` that resolves web pages; `sent` is the ghost history of its requests. */
  class WebPagesApi {
    var webPagesPending: seq<Entry>
    var pages: map<Page, PageState>
    var timer: Option<int>
    var lastRequestId: RequestId
    ghost var sent: map<RequestId, Sent>

    /** Between calls no id is negative, every positive one was sent, and the pages that wait are known. */
    ghost predicate Valid()
      reads this
    {
      && Distinct(webPagesPending)
      && (forall e | e in webPagesPending :: e.requestId >= 0 && (e.requestId > 0 ==> e.requestId in sent))
      && (forall r | r in sent :: 0 < r <= lastRequestId)
      && (forall e | e in webPagesPending :: e.page in pages)
      && lastRequestId >= 0
    }

    constructor ()
      ensures Valid() && webPagesPending == [] && pages == map[] && timer == None && sent == map[]
    {
      webPagesPending, pages, timer, lastRequestId, sent := [], map[], None, 0, map[];
    }

    /** `request(...).send()` */
    method Send(group: Option<nat>, ids: seq<MsgId>) returns (requestId: RequestId)
      modifies this`lastRequestId, this`sent
      ensures requestId == lastRequestId == old(lastRequestId) + 1
      ensures sent == old(sent)[requestId := Sent(group, ids)]
    {
      lastRequestId := lastRequestId + 1;
      requestId := lastRequestId;
      sent := sent[requestId := Sent(group, ids)];
    }

    /** The first loop of `resolveWebPages`. */
    method FirstPass(w: World) returns (ids: seq<MsgId>, idsByChannel: map<nat, IndexAndIds>, m: int)
      requires w.pages == pages
      modifies this`webPagesPending
      ensures Marked(w, old(webPagesPending), |old(webPagesPending)|, webPagesPending, idsByChannel)
      ensures Collected(w, old(webPagesPending), |old(webPagesPending)|, ids, idsByChannel)
      ensures m == ShortestWait(w, old(webPagesPending))
    {
      hide Marked, Collected, DueIds, ShortestWait;
      ghost var before := webPagesPending;
      ids, idsByChannel, m := [], map[], INT_MAX;
      NothingCollected(w, before);
      var i := 0;
      while i < |webPagesPending|
        invariant 0 <= i <= |webPagesPending| == |before|
        invariant Marked(w, before, i, webPagesPending, idsByChannel)
        invariant Collected(w, before, i, ids, idsByChannel)
        invariant m == ShortestWait(w, before[..i])
      {
        MarkedEntry(w, before, i, webPagesPending, idsByChannel);
        CollectNext(w, before, i, ids, idsByChannel);
        MarkNext(w, before, i, webPagesPending, idsByChannel);
        ShortestWaitNext(w, before, i);
        var page, requestId := webPagesPending[i].page, webPagesPending[i].requestId;
        if !(requestId > 0) {
          if Till(pages, page) <= w.now {
            if page in w.items {
              var item := w.items[page];
              if item.channel.Some? {
                idsByChannel := Push(idsByChannel, item.channel.value, item.id);
                webPagesPending := webPagesPending[i := Entry(page, -2 - idsByChannel[item.channel.value].index)];
              } else {
                ids := ids + [item.id];
                webPagesPending := webPagesPending[i := Entry(page, -1)];
              }
            }
          } else if Till(pages, page) - w.now < m {
            m := Till(pages, page) - w.now;
          }
        }
        i := i + 1;
      }
      assert before[..|before|] == before;
    }

    /** The sending part of `resolveWebPages`. */
    method SendAll(ids: seq<MsgId>, idsByChannel: map<nat, IndexAndIds>)
      returns (requestId: RequestId, reqsByIndex: seq<RequestId>, ghost requests: map<Option<nat>, RequestId>)
      requires Indexed(idsByChannel)
      requires forall r | r in sent :: r <= lastRequestId
      modifies this`lastRequestId, this`sent
      ensures Recorded(requests, ids, idsByChannel, requestId, reqsByIndex, {})
      ensures Issued(old(sent), old(lastRequestId), requests, ids, idsByChannel, sent, lastRequestId)
      ensures requestId == if ids == [] then 0 else old(lastRequestId) + 1
    {
      hide Issued, Recorded, Indexed;
      ghost var sent0, last0 := sent, lastRequestId;
      requests, requestId := map[], 0;
      NothingIssued(sent0, last0, ids, idsByChannel);
      if ids != [] {
        IssueNext(sent0, last0, requests, ids, idsByChannel, sent, lastRequestId, None);
        requestId := Send(None, ids);
        requests := requests[None := requestId];
      }
      reqsByIndex := seq(|idsByChannel|, _ => 0);
      var left := idsByChannel.Keys;
      NothingRecorded(requests, ids, idsByChannel, requestId);
      while left != {}
        invariant left <= idsByChannel.Keys
        invariant Recorded(requests, ids, idsByChannel, requestId, reqsByIndex, left)
        invariant Issued(sent0, last0, requests, ids, idsByChannel, sent, lastRequestId)
        decreases left
      {
        var channel :| channel in left;
        reqsByIndex, requests := SendChannel(channel, ids, idsByChannel, requestId, reqsByIndex, requests, left, sent0, last0);
        left := left - {channel};
      }
    }

    /** One request for a channel, recorded at its index */
    method SendChannel(channel: nat, ghost ids: seq<MsgId>, idsByChannel: map<nat, IndexAndIds>,
                       ghost requestId: RequestId, reqsBefore: seq<RequestId>,
                       ghost before: map<Option<nat>, RequestId>, ghost left: set<nat>,
                       ghost sent0: map<RequestId, Sent>, ghost last0: RequestId)
      returns (reqsByIndex: seq<RequestId>, ghost requests: map<Option<nat>, RequestId>)
      requires channel in left && channel in idsByChannel
      requires Recorded(before, ids, idsByChannel, requestId, reqsBefore, left)
      requires Issued(sent0, last0, before, ids, idsByChannel, sent, lastRequestId)
      requires forall r | r in sent0 :: r <= last0
      modifies this`lastRequestId, this`sent
      ensures Recorded(requests, ids, idsByChannel, requestId, reqsByIndex, left - {channel})
      ensures Issued(sent0, last0, requests, ids, idsByChannel, sent, lastRequestId)
    {
      hide Issued, Recorded, Indexed;
      RecordedChannel(before, ids, idsByChannel, requestId, reqsBefore, left, channel);
      IssueNext(sent0, last0, before, ids, idsByChannel, sent, lastRequestId, Some(channel));
      var sentId := Send(Some(channel), idsByChannel[channel].ids);
      RecordNext(before, ids, idsByChannel, requestId, reqsBefore, left, channel, sentId);
      reqsByIndex := reqsBefore[idsByChannel[channel].index := sentId];
      requests := before[Some(channel) := sentId];
    }

    /** The second loop of `resolveWebPages`. */
    method SecondPass(requestId: RequestId, reqsByIndex: seq<RequestId>)
      requires forall e | e in webPagesPending :: e.requestId < -1 ==> -e.requestId - 2 < |reqsByIndex|
      modifies this`webPagesPending
      ensures |webPagesPending| == |old(webPagesPending)|
      ensures forall i | 0 <= i < |webPagesPending| ::
                && var e := old(webPagesPending)[i];
                && e in old(webPagesPending)
                && (e.requestId < -1 ==> -e.requestId - 2 < |reqsByIndex|)
                && webPagesPending[i] == Entry(e.page, Decoded(e.requestId, requestId, reqsByIndex))
    {
      ghost var before := webPagesPending;
      var i := 0;
      while i < |webPagesPending|
        invariant 0 <= i <= |webPagesPending| == |before|
        invariant forall j | i <= j < |before| :: webPagesPending[j] == before[j]
        invariant forall j | 0 <= j < i ::
                    && before[j] in before
                    && (before[j].requestId < -1 ==> -before[j].requestId - 2 < |reqsByIndex|)
                    && webPagesPending[j]
                       == Entry(before[j].page, Decoded(before[j].requestId, requestId, reqsByIndex))
      {
        assert before[i] in before;
        var pendingRequestId := webPagesPending[i].requestId;
        if !(pendingRequestId > 0) && pendingRequestId < 0 {
          if pendingRequestId == -1 {
            webPagesPending := webPagesPending[i := webPagesPending[i].(requestId := requestId)];
          } else {
            webPagesPending :=
              webPagesPending[i := webPagesPending[i].(requestId := reqsByIndex[-pendingRequestId - 2])];
          }
        }
        i := i + 1;
      }
    }

    /** The two passes of `resolveWebPages`, with the shortest wait */
    method AskAll(w: World) returns (ghost requests: map<Option<nat>, RequestId>, m: int)
      requires Valid() && w.pages == pages
      modifies this`webPagesPending, this`lastRequestId, this`sent
      ensures Valid()
      ensures Direct(w, old(webPagesPending), requests, webPagesPending)
      ensures |webPagesPending| == |old(webPagesPending)|
      ensures forall g :: g in requests <==> DueIds(w, old(webPagesPending), g) != []
      ensures forall i | 0 <= i < |old(webPagesPending)| && Due(w, old(webPagesPending)[i]) ::
                w.items[old(webPagesPending)[i].page].channel in requests
      ensures forall g | g in requests ::
                && requests[g] > 0 && requests[g] !in old(sent) && requests[g] in sent
                && sent[requests[g]] == Sent(g, DueIds(w, old(webPagesPending), g))
      ensures forall g, h | g in requests && h in requests && g != h :: requests[g] != requests[h]
      ensures forall r | r in old(sent) :: r in sent && sent[r] == old(sent)[r]
      ensures m == ShortestWait(w, old(webPagesPending))
    {
      hide DueIds, Marked, Direct, Collected, ShortestWait, Due;
      ghost var before, sent0 := webPagesPending, sent;
      var ids, idsByChannel;
      ids, idsByChannel, m := FirstPass(w);
      requests := SendAndDecode(w, before, ids, idsByChannel);
      DirectKeepsValid(w, before, requests, webPagesPending, sent0, sent);
    }

    /** The requests and the second pass, behind the first one */
    method SendAndDecode(ghost w: World, ghost before: seq<Entry>, ids: seq<MsgId>, idsByChannel: map<nat, IndexAndIds>)
      returns (ghost requests: map<Option<nat>, RequestId>)
      requires Marked(w, before, |before|, webPagesPending, idsByChannel)
      requires Collected(w, before, |before|, ids, idsByChannel)
      requires forall e | e in before :: e.requestId >= 0
      requires (forall r | r in sent :: 0 < r <= lastRequestId) && lastRequestId >= 0
      modifies this`webPagesPending, this`lastRequestId, this`sent
      ensures Direct(w, before, requests, webPagesPending) && |webPagesPending| == |before|
      ensures forall g :: g in requests <==> DueIds(w, before, g) != []
      ensures forall i | 0 <= i < |before| && Due(w, before[i]) :: w.items[before[i].page].channel in requests
      ensures forall g | g in requests ::
                && requests[g] > 0 && requests[g] !in old(sent) && requests[g] in sent
                && sent[requests[g]] == Sent(g, DueIds(w, before, g))
      ensures forall g, h | g in requests && h in requests && g != h :: requests[g] != requests[h]
      ensures forall r | r in old(sent) :: r in sent && sent[r] == old(sent)[r]
      ensures (forall r | r in sent :: 0 < r <= lastRequestId) && lastRequestId >= 0
    {
      hide DueIds, Marked, Direct, Collected, Issued, Recorded;
      ghost var marked, sent0, last0 := webPagesPending, sent, lastRequestId;
      CollectedAll(w, before, ids, idsByChannel);
      var requestId, reqsByIndex;
      requestId, reqsByIndex, requests := SendAll(ids, idsByChannel);
      TemporariesInRange(w, before, marked, ids, idsByChannel, requests, requestId, reqsByIndex);
      if requestId != 0 || reqsByIndex != [] {
        SecondPass(requestId, reqsByIndex);
      }
      DecodingIsDirect(w, before, marked, ids, idsByChannel, requests, requestId, reqsByIndex, webPagesPending);
      IssuedForGroups(w, before, ids, idsByChannel, requests, requestId, reqsByIndex, sent0, last0, sent, lastRequestId);
    }

    /** `resolveWebPages`; `requests` names the request of each group that had something due. */
    method ResolveWebPages(now: int, items: map<Page, Item>) returns (ghost requests: map<Option<nat>, RequestId>)
      requires Valid()
      modifies this
      ensures Valid()
      ensures var w := World(now, pages, items);
              && Direct(w, old(webPagesPending), requests, webPagesPending)
              && (forall g :: g in requests <==> DueIds(w, old(webPagesPending), g) != [])
              && (forall i | 0 <= i < |old(webPagesPending)| && Due(w, old(webPagesPending)[i]) ::
                    items[old(webPagesPending)[i].page].channel in requests)
              && timer == (var m := ShortestWait(w, old(webPagesPending));
                           if m < INT_MAX then Some((if m < 86400 then m else 86400) * 1000) else old(timer))
      ensures forall g | g in requests ::
                && requests[g] !in old(sent) && requests[g] in sent
                && sent[requests[g]] == Sent(g, DueIds(World(now, pages, items), old(webPagesPending), g))
      ensures forall g, h | g in requests && h in requests && g != h :: requests[g] != requests[h]
      ensures forall r | r in old(sent) :: r in sent && sent[r] == old(sent)[r]
      ensures pages == old(pages)
      // What this means for each entry, whatever is called due:
      ensures |webPagesPending| == |old(webPagesPending)|
      ensures forall i | 0 <= i < |webPagesPending| ::
                AskedOrKept(pages[old(webPagesPending)[i].page].pendingTill, now, items, old(webPagesPending)[i],
                            webPagesPending[i], old(sent), sent)
      ensures TimerIsSet(old(webPagesPending), pages, now, old(timer), timer)
    {
      hide DueIds, Direct, ShortestWait, AskedOrKept, TimerIsSet, Due, Distinct;
      ghost var before := webPagesPending;
      var w := World(now, pages, items);
      var m;
      requests, m := AskAll(w);
      DirectAsks(w, before, requests, webPagesPending, old(sent), sent);
      if m < INT_MAX {
        timer := Some((if m < 86400 then m else 86400) * 1000);
      }
      TimerOfShortestWait(w, before, old(timer), timer);
    }

    /** `gotWebPages`: the batch of the answered request leaves the map, its waiting pages fail. */
    method GotWebPages(req: RequestId)
      requires Valid() && req > 0
      modifies this`webPagesPending, this`pages
      ensures Valid()
      ensures webPagesPending == Remaining(old(webPagesPending), req)
      ensures pages == Settled(old(pages), PagesOf(old(webPagesPending), req))
    {
      hide Remaining, PagesOf, Settled;
      ghost var before, pages0 := webPagesPending, pages;
      NothingRemains(req, pages0);
      ghost var at := 0;
      var i := 0;
      assert before[..0] == [] && before[0..] == before;
      while i < |webPagesPending|
        invariant 0 <= i <= |webPagesPending| && 0 <= at <= |before|
        invariant webPagesPending[i..] == before[at..]
        invariant webPagesPending[..i] + Remaining(before[at..], req) == Remaining(before, req)
        invariant pages == Settled(pages0, PagesOf(before[..at], req))
        decreases |before| - at
      {
        assert webPagesPending[i] == webPagesPending[i..][0] == before[at];
        RemainingFrom(before, at, req);
        SettledNext(pages0, before, at, req);
        if webPagesPending[i].requestId == req {
          var page := webPagesPending[i].page;
          if Till(pages, page) > 0 {
            pages := pages[page := PageState(0, true)];
          }
          assert webPagesPending[i + 1..] == before[at + 1..];
          webPagesPending := webPagesPending[..i] + webPagesPending[i + 1..];
        } else {
          i := i + 1;
        }
        at := at + 1;
      }
      assert before[at..] == [] && before[..at] == before;
      assert webPagesPending[..i] == webPagesPending;
      RemainingKeeps(before, req);
      SettledKeys(pages0, PagesOf(before, req));
      assert webPagesPending == Remaining(before, req);
      assert Distinct(webPagesPending);
    }

    /** `requestWebPageDelayed`; `remaining` is the time left on the timer, if it runs. */
    method RequestWebPageDelayed(page: Page, now: int, remaining: int)
      requires Valid()
      modifies this`webPagesPending, this`timer
      ensures Valid()
      ensures var waits := page in pages && !pages[page].failed && pages[page].pendingTill != 0;
              && (!waits ==> webPagesPending == old(webPagesPending) && timer == old(timer))
              && (waits && (exists e :: e in old(webPagesPending) && e.page == page)
                  ==> webPagesPending == old(webPagesPending))
              && (waits && (forall e | e in old(webPagesPending) :: e.page != page)
                  ==> webPagesPending == old(webPagesPending) + [Entry(page, 0)])
              && (waits ==> var left := (pages[page].pendingTill - now) * 1000;
                            timer == if old(timer).None? || left <= remaining
                                     then Some((if left < 0 then 0 else left) + 1) else old(timer))
    {
      if page !in pages || pages[page].failed || pages[page].pendingTill == 0 {
        return;
      }
      if forall e | e in webPagesPending :: e.page != page {
        webPagesPending := webPagesPending + [Entry(page, 0)];
      }
      var left := (pages[page].pendingTill - now) * 1000;
      if timer.None? || left <= remaining {
        timer := Some((if left < 0 then 0 else left) + 1);
      }
    }

    /** `clearWebPageRequest` */
    method ClearWebPageRequest(page: Page)
      requires Valid()
      modifies this`webPagesPending, this`timer
      ensures Valid()
      ensures forall e :: e in webPagesPending <==> e in old(webPagesPending) && e.page != page
      ensures timer == if webPagesPending == [] then None else old(timer)
    {
      var i := 0;
      while i < |webPagesPending| && webPagesPending[i].page != page
        invariant 0 <= i <= |webPagesPending|
        invariant forall j | 0 <= j < i :: webPagesPending[j].page != page
      {
        i := i + 1;
      }
      if i < |webPagesPending| {
        ghost var before := webPagesPending;
        webPagesPending := webPagesPending[..i] + webPagesPending[i + 1..];
        forall e | e in before && e.page != page ensures e in webPagesPending {
          var j :| 0 <= j < |before| && before[j] == e;
          assert e == webPagesPending[if j < i then j else j - 1];
        }
      }
      if webPagesPending == [] && timer.Some? {
        timer := None;
      }
    }

    /** `clearWebPageRequests` */
    method ClearWebPageRequests()
      requires Valid()
      modifies this`webPagesPending, this`timer
      ensures Valid() && webPagesPending == [] && timer == None
    {
      webPagesPending, timer := [], None;
    }
  }

  // ----- What a reply removes -----

  lemma NothingRemains(req: RequestId, pages: map<Page, PageState>)
    ensures Remaining([], req) == [] && Settled(pages, PagesOf([], req)) == pages
  {}

  lemma SettledKeys(pages: map<Page, PageState>, batch: set<Page>)
    ensures Settled(pages, batch).Keys == pages.Keys
  {}

  lemma RemainingFrom(pending: seq<Entry>, i: nat, req: RequestId)
    requires i < |pending|
    ensures Remaining(pending[i..], req)
         == (if pending[i].requestId == req then [] else [pending[i]]) + Remaining(pending[i + 1..], req)
  {
    assert pending[i..][1..] == pending[i + 1..];
  }

  lemma SettledNext(pages: map<Page, PageState>, pending: seq<Entry>, i: nat, req: RequestId)
    requires i < |pending|
    ensures var before := Settled(pages, PagesOf(pending[..i], req));
            Settled(pages, PagesOf(pending[..i + 1], req))
            == if pending[i].requestId == req && Till(before, pending[i].page) > 0
               then before[pending[i].page := PageState(0, true)] else before
  {
    var e := pending[i];
    assert pending[..i + 1] == pending[..i] + [e];
    assert PagesOf(pending[..i + 1], req) == PagesOf(pending[..i], req) + if e.requestId == req then {e.page} else {};
  }

  /** A reply removes exactly the entries that wait for it, and keeps the others in order. */
  lemma {:induction false} RemainingKeeps(pending: seq<Entry>, req: RequestId)
    ensures forall e :: e in Remaining(pending, req) <==> e in pending && e.requestId != req
    ensures Distinct(pending) ==> Distinct(Remaining(pending, req))
  {
    if pending != [] {
      RemainingKeeps(pending[1..], req);
      var rest := Remaining(pending[1..], req);
      assert pending == [pending[0]] + pending[1..];
      if Distinct(pending) {
        forall i, j | 0 <= i < j < |pending[1..]| ensures pending[1..][i].page != pending[1..][j].page {
          assert pending[1..][i] == pending[i + 1] && pending[1..][j] == pending[j + 1];
        }
        forall i | 0 <= i < |rest| ensures rest[i].page != pending[0].page {
          assert rest[i] in pending[1..];
        }
      }
    }
  }

  /** After the direct assignment the entries of a group's request are its newly due pages, and no others. */
  lemma BatchIsItsGroup(w: World, before: seq<Entry>, requests: map<Option<nat>, RequestId>, result: seq<Entry>,
                        group: Option<nat>)
    requires Direct(w, before, requests, result) && group in requests
    requires forall e, g | e in before && g in requests :: e.requestId != requests[g]
    requires forall g, h | g in requests && h in requests && g != h :: requests[g] != requests[h]
    ensures PagesOf(result, requests[group])
         == set e | e in before && Due(w, e) && w.items[e.page].channel == group :: e.page
  {
    var batch := set e | e in before && Due(w, e) && w.items[e.page].channel == group :: e.page;
    forall p ensures p in PagesOf(result, requests[group]) <==> p in batch {
      if p in PagesOf(result, requests[group]) {
        var i :| 0 <= i < |result| && result[i].page == p && result[i].requestId == requests[group];
        assert before[i] in before;
      }
      if p in batch {
        var i :| 0 <= i < |before| && Due(w, before[i]) && w.items[before[i].page].channel == group && before[i].page == p;
        assert result[i] in result;
      }
    }
  }

  lemma NothingIssued(sent0: map<RequestId, Sent>, last0: RequestId, ids: seq<MsgId>, byChannel: map<nat, IndexAndIds>)
    ensures Issued(sent0, last0, map[], ids, byChannel, sent0, last0)
  {}

  lemma CollectedAll(w: World, before: seq<Entry>, ids: seq<MsgId>, byChannel: map<nat, IndexAndIds>)
    requires Collected(w, before, |before|, ids, byChannel)
    ensures Indexed(byChannel) && ids == DueIds(w, before, None)
    ensures forall c :: c in byChannel <==> DueIds(w, before, Some(c)) != []
    ensures forall c | c in byChannel :: byChannel[c].ids == DueIds(w, before, Some(c))
  {
    assert before[..|before|] == before;
  }

  lemma TemporariesInRange(w: World, before: seq<Entry>, pending: seq<Entry>, ids: seq<MsgId>,
                           byChannel: map<nat, IndexAndIds>, requests: map<Option<nat>, RequestId>,
                           requestId: RequestId, reqsByIndex: seq<RequestId>)
    requires Marked(w, before, |before|, pending, byChannel)
    requires Recorded(requests, ids, byChannel, requestId, reqsByIndex, {})
    requires forall e | e in before :: e.requestId >= 0
    ensures forall i | 0 <= i < |pending| && pending[i].requestId < -1 :: -pending[i].requestId - 2 < |reqsByIndex|
    ensures forall e | e in pending && e.requestId < -1 :: -e.requestId - 2 < |reqsByIndex|
    ensures reqsByIndex == [] && ids == DueIds(w, before, None) == [] ==> forall e | e in pending :: e.requestId >= 0
  {
    forall i | 0 <= i < |pending|
      ensures pending[i].requestId < -1 ==> -pending[i].requestId - 2 < |reqsByIndex|
      ensures reqsByIndex == [] && ids == DueIds(w, before, None) == [] ==> pending[i].requestId >= 0
    {
      IndicesAreInRange(w, before, pending, byChannel, i);
      assert before[i] in before;
      if Due(w, before[i]) {
        DueIdsNotEmpty(w, before, i);
      }
    }
  }

  /** The sent requests ask for the due pages of the groups. */
  lemma IssuedForGroups(w: World, before: seq<Entry>, ids: seq<MsgId>, byChannel: map<nat, IndexAndIds>,
                        requests: map<Option<nat>, RequestId>, requestId: RequestId, reqsByIndex: seq<RequestId>,
                        sent0: map<RequestId, Sent>, last0: RequestId, sent: map<RequestId, Sent>, last: RequestId)
    requires Recorded(requests, ids, byChannel, requestId, reqsByIndex, {})
    requires Issued(sent0, last0, requests, ids, byChannel, sent, last)
    requires ids == DueIds(w, before, None)
    requires forall c :: c in byChannel <==> DueIds(w, before, Some(c)) != []
    requires forall c | c in byChannel :: byChannel[c].ids == DueIds(w, before, Some(c))
    requires forall r | r in sent0 :: 0 < r <= last0
    requires last0 >= 0
    ensures forall g :: g in requests <==> DueIds(w, before, g) != []
    ensures forall g | g in requests ::
              && requests[g] !in sent0 && requests[g] in sent && requests[g] > 0
              && sent[requests[g]] == Sent(g, DueIds(w, before, g))
    ensures forall g, h | g in requests && h in requests && g != h :: requests[g] != requests[h]
    ensures forall r | r in sent0 :: r in sent && sent[r] == sent0[r]
    ensures forall r | r in sent :: 0 < r <= last
    ensures last >= last0
  {
    hide DueIds;
    forall g ensures g in requests <==> DueIds(w, before, g) != []
             ensures g in requests ==> GroupIds(ids, byChannel, g) == DueIds(w, before, g)
    {
      match g
      case None =>
      case Some(c) => assert Some(c) in requests <==> c in byChannel;
    }
  }

  lemma DirectKeepsValid(w: World, before: seq<Entry>, requests: map<Option<nat>, RequestId>, result: seq<Entry>,
                         sent0: map<RequestId, Sent>, sent: map<RequestId, Sent>)
    requires Direct(w, before, requests, result) && Distinct(before)
    requires forall e | e in before :: e.requestId >= 0 && (e.requestId > 0 ==> e.requestId in sent0)
    requires forall r | r in sent0 :: r in sent
    requires forall g | g in requests :: requests[g] > 0 && requests[g] in sent
    ensures Distinct(result)
    ensures forall e | e in result :: e.requestId >= 0 && (e.requestId > 0 ==> e.requestId in sent)
    ensures (forall e | e in before :: e.page in w.pages) ==> forall e | e in result :: e.page in w.pages
  {
    forall i | 0 <= i < |result|
      ensures result[i].requestId >= 0 && (result[i].requestId > 0 ==> result[i].requestId in sent)
      ensures result[i].page == before[i].page
    {
      assert before[i] in before;
    }
  }

  lemma NothingRecorded(requests: map<Option<nat>, RequestId>, ids: seq<MsgId>, byChannel: map<nat, IndexAndIds>,
                        requestId: RequestId)
    requires Indexed(byChannel) && requests == if ids == [] then map[] else map[None := requestId]
    ensures Recorded(requests, ids, byChannel, requestId, seq(|byChannel|, _ => 0), byChannel.Keys)
  {}

  lemma RecordedChannel(requests: map<Option<nat>, RequestId>, ids: seq<MsgId>, byChannel: map<nat, IndexAndIds>,
                        requestId: RequestId, reqsByIndex: seq<RequestId>, left: set<nat>, channel: nat)
    requires Recorded(requests, ids, byChannel, requestId, reqsByIndex, left) && channel in left
    requires channel in byChannel
    ensures Some(channel) !in requests && byChannel[channel].index < |reqsByIndex|
  {}

  lemma NothingCollected(w: World, before: seq<Entry>)
    ensures Marked(w, before, 0, before, map[]) && Collected(w, before, 0, [], map[])
    ensures ShortestWait(w, before[..0]) == INT_MAX
  {}

  lemma ShortestWaitNext(w: World, pending: seq<Entry>, i: nat)
    requires i < |pending|
    ensures var e, rest := pending[i], ShortestWait(w, pending[..i]);
            ShortestWait(w, pending[..i + 1])
            == if e.requestId <= 0 && Till(w.pages, e.page) > w.now && Till(w.pages, e.page) - w.now < rest
               then Till(w.pages, e.page) - w.now else rest
  {
    assert pending[..i + 1][..i] == pending[..i];
  }

  lemma MarkedEntry(w: World, before: seq<Entry>, i: nat, pending: seq<Entry>, byChannel: map<nat, IndexAndIds>)
    requires Marked(w, before, i, pending, byChannel) && i < |before|
    ensures |pending| == |before| && pending[i] == before[i]
  {}
}
