/** The message-data batching of `ApiWrap`: registrations, delayed resolves and replies. */
module MessageData {
  import opened Options

  type MsgId = int
  type RequestId = int
  type Callback = nat

  /** The two kinds of request map: the plain one, and one for each channel. */
  datatype Target = Plain | Channel(id: nat)

  /** A `MessageDataRequest` with its key; a table is a `flat_map`, sorted by key. */
  datatype Pending = Pending(msgId: MsgId, requestId: RequestId, callbacks: seq<Callback>)

  ghost predicate Sorted(table: seq<Pending>) {
    table == [] || ((forall p | p in table[1..] :: table[0].msgId < p.msgId) && Sorted(table[1..]))
  }

  // ----- Operations on one table -----

  function Added(done: Option<Callback>): seq<Callback> {
    if done.Some? then [done.value] else []
  }

  /** `requests[msgId]` with the callback pushed back. */
  function Register(table: seq<Pending>, msgId: MsgId, done: Option<Callback>): seq<Pending> {
    if table == [] || msgId < table[0].msgId then
      [Pending(msgId, 0, Added(done))] + table
    else if msgId == table[0].msgId then
      [table[0].(callbacks := table[0].callbacks + Added(done))] + table[1..]
    else
      [table[0]] + Register(table[1..], msgId, done)
  }

  /** The request that carries a message id, 0 when none does. */
  function RequestOf(table: seq<Pending>, msgId: MsgId): RequestId {
    if table == [] then 0
    else if table[0].msgId == msgId then table[0].requestId
    else RequestOf(table[1..], msgId)
  }

  /** `collectMessageIds`: the ids that no request carries yet. */
  function Uncarried(table: seq<Pending>): seq<MsgId> {
    if table == [] then []
    else (if table[0].requestId > 0 then [] else [table[0].msgId]) + Uncarried(table[1..])
  }

  /** The assignment loop behind a sent request. */
  function Assign(table: seq<Pending>, requestId: RequestId): seq<Pending> {
    if table == [] then []
    else [if table[0].requestId > 0 then table[0] else table[0].(requestId := requestId)]
         + Assign(table[1..], requestId)
  }

  /** The message ids that wait for a request. */
  function CarriedBy(table: seq<Pending>, requestId: RequestId): seq<MsgId> {
    if table == [] then []
    else (if table[0].requestId == requestId then [table[0].msgId] else []) + CarriedBy(table[1..], requestId)
  }

  /** What the erasing loop of `finalizeMessageDataRequest` leaves ... */
  function Without(table: seq<Pending>, requestId: RequestId): seq<Pending> {
    if table == [] then []
    else (if table[0].requestId == requestId then [] else [table[0]]) + Without(table[1..], requestId)
  }

  /** ... and the callbacks that it moves out. */
  function Released(table: seq<Pending>, requestId: RequestId): seq<Callback> {
    if table == [] then []
    else (if table[0].requestId == requestId then table[0].callbacks else []) + Released(table[1..], requestId)
  }

  function Callbacks(table: seq<Pending>): multiset<Callback> {
    if table == [] then multiset{} else multiset(table[0].callbacks) + Callbacks(table[1..])
  }

  // ----- What they keep -----

  ghost predicate NonNegative(table: seq<Pending>) {
    forall p | p in table :: p.requestId >= 0
  }

  ghost predicate AllCarried(table: seq<Pending>) {
    forall p | p in table :: p.requestId > 0
  }

  lemma {:induction false} RegisterMembers(table: seq<Pending>, msgId: MsgId, done: Option<Callback>)
    requires NonNegative(table)
    ensures var t := Register(table, msgId, done);
            t != [] && NonNegative(t) && forall p | p in t :: p.msgId == msgId || p in table
  {
    if table != [] {
      assert table[0] in table;
      if msgId > table[0].msgId {
        RegisterMembers(table[1..], msgId, done);
      }
    }
  }

  lemma {:induction false} RegisterSorted(table: seq<Pending>, msgId: MsgId, done: Option<Callback>)
    requires Sorted(table) && NonNegative(table)
    ensures Sorted(Register(table, msgId, done))
  {
    var t := Register(table, msgId, done);
    if table == [] || msgId < table[0].msgId {
      assert t[1..] == table;
    } else if msgId == table[0].msgId {
      assert t[1..] == table[1..];
    } else {
      RegisterSorted(table[1..], msgId, done);
      RegisterMembers(table[1..], msgId, done);
      assert Register(table, msgId, done)[1..] == Register(table[1..], msgId, done);
    }
  }

  lemma {:induction false} RegisterCallbacks(table: seq<Pending>, msgId: MsgId, done: Option<Callback>)
    ensures Callbacks(Register(table, msgId, done)) == Callbacks(table) + multiset(Added(done))
  {
    if table == [] || msgId < table[0].msgId {
      assert Register(table, msgId, done)[1..] == table;
    } else if msgId == table[0].msgId {
      assert Register(table, msgId, done)[1..] == table[1..];
    } else {
      RegisterCallbacks(table[1..], msgId, done);
      assert Register(table, msgId, done)[1..] == Register(table[1..], msgId, done);
    }
  }

  /** Some entry of the table has the id, the request and the callbacks. */
  ghost predicate HasEntry(table: seq<Pending>, msgId: MsgId, requestId: RequestId, callbacks: seq<Callback>) {
    Pending(msgId, requestId, callbacks) in table
  }

  lemma EntryBehind(head: Pending, rest: seq<Pending>, msgId: MsgId, requestId: RequestId, callbacks: seq<Callback>)
    ensures HasEntry(rest, msgId, requestId, callbacks) ==> HasEntry([head] + rest, msgId, requestId, callbacks)
    ensures head == Pending(msgId, requestId, callbacks) ==> HasEntry([head] + rest, msgId, requestId, callbacks)
    ensures RequestOf([head] + rest, msgId) == if head.msgId == msgId then head.requestId else RequestOf(rest, msgId)
  {
    assert ([head] + rest)[0] == head && ([head] + rest)[1..] == rest;
  }

  lemma {:induction false} RegisterHolds(table: seq<Pending>, msgId: MsgId, done: Option<Callback>)
    returns (r: RequestId, callbacks: seq<Callback>)
    ensures HasEntry(Register(table, msgId, done), msgId, r, callbacks)
    ensures done.Some? ==> callbacks != [] && callbacks[|callbacks| - 1] == done.value
    ensures r == RequestOf(Register(table, msgId, done), msgId)
  {
    hide HasEntry, RequestOf;
    if table == [] || msgId < table[0].msgId {
      r, callbacks := 0, Added(done);
      EntryBehind(Pending(msgId, r, callbacks), table, msgId, r, callbacks);
    } else if msgId == table[0].msgId {
      r, callbacks := table[0].requestId, table[0].callbacks + Added(done);
      EntryBehind(Pending(msgId, r, callbacks), table[1..], msgId, r, callbacks);
    } else {
      r, callbacks := RegisterHolds(table[1..], msgId, done);
      EntryBehind(table[0], Register(table[1..], msgId, done), msgId, r, callbacks);
    }
  }

  lemma {:induction false} SortedHead(table: seq<Pending>, p: Pending)
    requires Sorted(table) && table != [] && p in table
    ensures p == table[0] || (p in table[1..] && table[0].msgId < p.msgId)
  {
    assert table == [table[0]] + table[1..];
  }

  /**
   * A registration leaves the entries of other ids alone. The entry of its id keeps its request and gets a given
   * callback as its last one; without an entry before, there is a new one without a request, with the given callback
   * alone.
   */
  lemma {:induction false} RegisterIs(table: seq<Pending>, msgId: MsgId, done: Option<Callback>)
    requires Sorted(table)
    ensures var t := Register(table, msgId, done);
            && (forall p: Pending | p.msgId != msgId :: p in t <==> p in table)
            && (forall p, c | p in table && p.msgId == msgId && done == Some(c) ::
                  HasEntry(t, msgId, p.requestId, p.callbacks + [c]))
            && (forall p | p in table && p.msgId == msgId && done == None :: p in t)
            && ((forall p | p in table :: p.msgId != msgId) ==>
                  match done
                  case None => HasEntry(t, msgId, 0, [])
                  case Some(c) => HasEntry(t, msgId, 0, [c]))
  {
    var t := Register(table, msgId, done);
    if table == [] || msgId < table[0].msgId {
      forall p | p in table
        ensures p.msgId != msgId
      {
        SortedHead(table, p);
      }
    } else {
      var head, rest := table[0], table[1..];
      assert table == [head] + rest;
      if msgId == head.msgId {
        forall p | p in rest
          ensures p.msgId != msgId
        {}
        assert done == None ==> head.(callbacks := head.callbacks + []) == head;
      } else {
        RegisterIs(rest, msgId, done);
        assert t == [head] + Register(rest, msgId, done);
      }
    }
  }

  lemma {:induction false} RegisterCarries(table: seq<Pending>, msgId: MsgId, done: Option<Callback>, r: RequestId)
    requires r != 0
    ensures CarriedBy(Register(table, msgId, done), r) == CarriedBy(table, r)
  {
    if table == [] || msgId < table[0].msgId {
      assert Register(table, msgId, done)[1..] == table;
    } else if msgId == table[0].msgId {
      assert Register(table, msgId, done)[1..] == table[1..];
    } else {
      RegisterCarries(table[1..], msgId, done, r);
      assert Register(table, msgId, done)[1..] == Register(table[1..], msgId, done);
    }
  }

  lemma {:induction false} RegisterCarried(table: seq<Pending>, msgId: MsgId, done: Option<Callback>)
    requires Sorted(table) && AllCarried(table) && RequestOf(Register(table, msgId, done), msgId) > 0
    ensures AllCarried(Register(table, msgId, done))
  {
    var t := Register(table, msgId, done);
    if table != [] && msgId >= table[0].msgId {
      assert table[0] in table;
      if msgId > table[0].msgId {
        assert t[1..] == Register(table[1..], msgId, done);
        RegisterCarried(table[1..], msgId, done);
      }
    }
  }

  lemma {:induction false} AssignKeeps(table: seq<Pending>, requestId: RequestId)
    requires Sorted(table) && NonNegative(table) && requestId > 0
    requires CarriedBy(table, requestId) == []
    ensures var t := Assign(table, requestId);
            && Sorted(t) && AllCarried(t)
            && Callbacks(t) == Callbacks(table)
            && CarriedBy(t, requestId) == Uncarried(table)
            && (forall r | r > 0 && r != requestId :: CarriedBy(t, r) == CarriedBy(table, r))
  {
    if table != [] {
      AssignKeeps(table[1..], requestId);
      assert Assign(table, requestId)[1..] == Assign(table[1..], requestId);
      assert table[0] in table;
    }
  }

  lemma {:induction false} WithoutMembers(table: seq<Pending>, requestId: RequestId)
    ensures forall p | p in Without(table, requestId) :: p in table
  {
    if table != [] {
      WithoutMembers(table[1..], requestId);
    }
  }

  lemma {:induction false} WithoutSorted(table: seq<Pending>, requestId: RequestId)
    requires Sorted(table)
    ensures Sorted(Without(table, requestId))
  {
    if table != [] {
      WithoutSorted(table[1..], requestId);
      WithoutMembers(table[1..], requestId);
      var rest := Without(table[1..], requestId);
      assert Without(table, requestId) == if table[0].requestId == requestId then rest else [table[0]] + rest;
      assert ([table[0]] + rest)[1..] == rest;
    }
  }

  lemma CallbacksCons(p: Pending, rest: seq<Pending>)
    ensures Callbacks([p] + rest) == multiset(p.callbacks) + Callbacks(rest)
  {
    assert ([p] + rest)[1..] == rest;
  }

  lemma {:induction false} WithoutCallbacks(table: seq<Pending>, requestId: RequestId)
    ensures Callbacks(Without(table, requestId)) + multiset(Released(table, requestId)) == Callbacks(table)
  {
    if table != [] {
      WithoutCallbacks(table[1..], requestId);
      var p, rest := table[0], table[1..];
      assert table == [p] + rest;
      CallbacksCons(p, rest);
      CallbacksCons(p, Without(rest, requestId));
      assert Without(table, requestId) == (if p.requestId == requestId then [] else [p]) + Without(rest, requestId);
      assert Released(table, requestId)
          == (if p.requestId == requestId then p.callbacks else []) + Released(rest, requestId);
      hide Callbacks, Without, Released;
      if p.requestId == requestId {
        assert Without(table, requestId) == Without(rest, requestId);
      } else {
        assert Released(table, requestId) == Released(rest, requestId);
      }
    }
  }

  lemma {:induction false} WithoutCarries(table: seq<Pending>, requestId: RequestId, r: RequestId)
    ensures CarriedBy(Without(table, requestId), r) == if r == requestId then [] else CarriedBy(table, r)
  {
    if table != [] {
      WithoutCarries(table[1..], requestId, r);
      var t := Without(table, requestId);
      if table[0].requestId == requestId {
        assert t == Without(table[1..], requestId);
      } else {
        assert t[1..] == Without(table[1..], requestId);
        assert CarriedBy(t, r) == (if table[0].requestId == r then [table[0].msgId] else []) + CarriedBy(t[1..], r);
      }
    }
  }

  lemma {:induction false} NothingUncarried(table: seq<Pending>)
    requires NonNegative(table)
    ensures Uncarried(table) == [] <==> AllCarried(table)
    ensures Uncarried(table) == CarriedBy(table, 0)
  {
    if table != [] {
      NothingUncarried(table[1..]);
      assert table[0] in table;
    }
  }

  // ----- The whole state -----

  /** What one request asked for. */
  datatype Batch = Batch(target: Target, ids: seq<MsgId>)

  /**
   * The fields of `ApiWrap`, the requests in flight, and the history: for each target the multiset of
   * callbacks registered so far and of callbacks invoked so far.
   */
  datatype State = State(
    plain: seq<Pending>,
    channels: map<nat, seq<Pending>>,
    resolveQueued: bool,
    lastId: RequestId,
    inFlight: map<RequestId, Batch>,
    registered: map<Target, multiset<Callback>>,
    invoked: map<Target, multiset<Callback>>)

  const INITIAL := State([], map[], false, 0, map[], map[], map[])

  function Table(s: State, target: Target): seq<Pending> {
    match target
    case Plain => s.plain
    case Channel(c) => if c in s.channels then s.channels[c] else []
  }

  function Count(history: map<Target, multiset<Callback>>, target: Target): multiset<Callback> {
    if target in history then history[target] else multiset{}
  }

  function WithTable(s: State, target: Target, table: seq<Pending>): State {
    match target
    case Plain => s.(plain := table)
    case Channel(c) => s.(channels := s.channels[c := table])
  }

  /** `requestMessageData` */
  function Request(s: State, target: Target, msgId: MsgId, done: Option<Callback>): State {
    var table := Register(Table(s, target), msgId, done);
    WithTable(s, target, table).(
      resolveQueued := s.resolveQueued || RequestOf(table, msgId) == 0,
      registered := s.registered[target := Count(s.registered, target) + multiset(Added(done))])
  }

  /** A call of `requestMessageData` made by a callback. */
  datatype Call = Call(target: Target, msgId: MsgId, done: Option<Callback>)

  function RequestAll(s: State, calls: seq<Call>): State
    decreases |calls|
  {
    if calls == [] then s
    else RequestAll(Request(s, calls[0].target, calls[0].msgId, calls[0].done), calls[1..])
  }

  /** The state with `callbacks` of `target` counted as invoked. */
  function Credit(s: State, target: Target, callbacks: seq<Callback>): State {
    s.(invoked := s.invoked[target := Count(s.invoked, target) + multiset(callbacks)])
  }

  /** Invoking the released callbacks in order; each may register more (`reaction`). */
  function Invoke(s: State, target: Target, callbacks: seq<Callback>, reaction: Callback -> seq<Call>): State
    decreases |callbacks|
  {
    if callbacks == [] then s
    else
      var called := Credit(s, target, [callbacks[0]]);
      Invoke(RequestAll(called, reaction(callbacks[0])), target, callbacks[1..], reaction)
  }

  /** The tables after a reply, before the callbacks run. */
  function Erase(s: State, target: Target, requestId: RequestId): State {
    match target
    case Plain => s.(plain := Without(s.plain, requestId))
    case Channel(c) =>
      if c !in s.channels then s
      else
        var left := Without(s.channels[c], requestId);
        if left == [] then s.(channels := s.channels - {c}) else s.(channels := s.channels[c := left])
  }

  /** The reply or the failure of a request: `finalizeMessageDataRequest`. */
  function Reply(s: State, requestId: RequestId, reaction: Callback -> seq<Call>): State
    requires requestId in s.inFlight
  {
    var target := s.inFlight[requestId].target;
    Invoke(Erase(s.(inFlight := s.inFlight - {requestId}), target, requestId),
           target, Released(Table(s, target), requestId), reaction)
  }

  /** `resolveMessageDatas`: every target with uncarried ids gets one fresh request for all of them. */
  ghost predicate Resolve(s: State, ids: map<Target, RequestId>, s': State) {
    && s'.registered == s.registered && s'.invoked == s.invoked && !s'.resolveQueued && s'.lastId >= s.lastId
    && (forall t :: t in ids <==> Uncarried(Table(s, t)) != [])
    && (forall t | t in ids :: s.lastId < ids[t] <= s'.lastId)
    && (forall t, u | t in ids && u in ids && t != u :: ids[t] != ids[u])
    && (forall t :: Table(s', t) == if t in ids then Assign(Table(s, t), ids[t]) else Table(s, t))
    && (forall c :: c in s'.channels <==> c in s.channels && s.channels[c] != [])
    && (forall r :: r in s'.inFlight <==> r in s.inFlight || exists t :: t in ids && ids[t] == r)
    && (forall r | r in s.inFlight && r in s'.inFlight :: s'.inFlight[r] == s.inFlight[r])
    && (forall t | t in ids && ids[t] in s'.inFlight :: s'.inFlight[ids[t]] == Batch(t, Uncarried(Table(s, t))))
  }

  // ----- The invariant -----

  /** One table: sorted, and everything uncarried only while a resolve is queued. */
  ghost predicate TableInv(s: State, target: Target) {
    var table := Table(s, target);
    && Sorted(table) && NonNegative(table)
    && (s.resolveQueued || AllCarried(table))
    && (forall r | r > 0 && CarriedBy(table, r) != [] :: r in s.inFlight && s.inFlight[r].target == target)
    && Count(s.registered, target) == Count(s.invoked, target) + Callbacks(table)
  }

  /** One request in flight: it carries exactly the entries that wait for it. */
  ghost predicate BatchInv(s: State, requestId: RequestId)
    requires requestId in s.inFlight
  {
    var batch := s.inFlight[requestId];
    && 0 < requestId <= s.lastId
    && batch.ids != [] && batch.ids == CarriedBy(Table(s, batch.target), requestId)
  }

  ghost predicate Inv(s: State) {
    && s.lastId >= 0
    && (forall t :: TableInv(s, t))
    && (forall r | r in s.inFlight :: BatchInv(s, r))
    && (forall c | c in s.channels :: s.channels[c] != [])
  }

  lemma RequestFields(s: State, target: Target, msgId: MsgId, done: Option<Callback>)
    ensures var s' := Request(s, target, msgId, done);
            var table' := Register(Table(s, target), msgId, done);
            && Table(s', target) == table'
            && (forall t | t != target :: Table(s', t) == Table(s, t))
            && s'.resolveQueued == (s.resolveQueued || RequestOf(table', msgId) == 0)
            && Count(s'.registered, target) == Count(s.registered, target) + multiset(Added(done))
            && (forall t | t != target :: Count(s'.registered, t) == Count(s.registered, t))
            && s'.inFlight == s.inFlight && s'.invoked == s.invoked && s'.lastId == s.lastId
            && (forall c | c in s'.channels ::
                  s'.channels[c] == table' || (c in s.channels && s'.channels[c] == s.channels[c]))
  {
    hide Register, RequestOf;
  }

  lemma RequestKeepsTable(s: State, target: Target, msgId: MsgId, done: Option<Callback>)
    requires TableInv(s, target)
    ensures TableInv(Request(s, target, msgId, done), target)
  {
    hide Register, RequestOf, Callbacks, CarriedBy, Request, Table, Count, Sorted, NonNegative, AllCarried;
    var s' := Request(s, target, msgId, done);
    var table := Table(s, target);
    var table' := Register(table, msgId, done);
    RequestFields(s, target, msgId, done);
    RegisterMembers(table, msgId, done);
    RegisterSorted(table, msgId, done);
    RegisterCallbacks(table, msgId, done);
    RequestIsNonNegative(table', msgId);
    if !s'.resolveQueued {
      RegisterCarried(table, msgId, done);
    }
    forall r | r > 0 ensures CarriedBy(table', r) == CarriedBy(table, r) {
      RegisterCarries(table, msgId, done, r);
    }
  }

  lemma RequestIsNonNegative(table: seq<Pending>, msgId: MsgId)
    requires NonNegative(table)
    ensures RequestOf(table, msgId) >= 0
  {
    if table != [] {
      assert table[0] in table;
    }
  }

  lemma RequestKeepsOtherTable(s: State, target: Target, msgId: MsgId, done: Option<Callback>, t: Target)
    requires TableInv(s, t) && t != target
    ensures TableInv(Request(s, target, msgId, done), t)
  {
    hide Register, RequestOf, Callbacks, CarriedBy, Request, Table, Count, Sorted, NonNegative, AllCarried;
    RequestFields(s, target, msgId, done);
  }

  lemma RequestKeepsBatch(s: State, target: Target, msgId: MsgId, done: Option<Callback>, r: RequestId)
    requires r in s.inFlight && BatchInv(s, r)
    ensures r in Request(s, target, msgId, done).inFlight && BatchInv(Request(s, target, msgId, done), r)
  {
    hide Register, CarriedBy, Request, Table;
    RequestFields(s, target, msgId, done);
    RegisterCarries(Table(s, target), msgId, done, r);
  }

  lemma RequestKeepsInv(s: State, target: Target, msgId: MsgId, done: Option<Callback>)
    requires Inv(s)
    ensures Inv(Request(s, target, msgId, done))
    ensures Request(s, target, msgId, done).inFlight == s.inFlight
    ensures Request(s, target, msgId, done).invoked == s.invoked
  {
    var s' := Request(s, target, msgId, done);
    RequestFields(s, target, msgId, done);
    RequestKeepsTable(s, target, msgId, done);
    assert TableInv(s, target);
    RegisterMembers(Table(s, target), msgId, done);
    hide TableInv, BatchInv, Request, Table, Count, Register, RequestOf;
    forall t | t != target ensures TableInv(s', t) {
      RequestKeepsOtherTable(s, target, msgId, done, t);
    }
    forall r | r in s'.inFlight ensures BatchInv(s', r) {
      RequestKeepsBatch(s, target, msgId, done, r);
    }
  }

  lemma {:induction false} RequestAllKeepsInv(s: State, calls: seq<Call>)
    requires Inv(s)
    ensures Inv(RequestAll(s, calls))
    ensures RequestAll(s, calls).inFlight == s.inFlight && RequestAll(s, calls).invoked == s.invoked
    decreases |calls|
  {
    hide Inv, Request;
    if calls != [] {
      var call := calls[0];
      RequestKeepsInv(s, call.target, call.msgId, call.done);
      RequestAllKeepsInv(Request(s, call.target, call.msgId, call.done), calls[1..]);
    }
  }

  lemma CreditIsRequested(s: State, target: Target, callbacks: seq<Callback>, calls: seq<Call>)
    ensures RequestAll(Credit(s, target, callbacks), calls) == Credit(RequestAll(s, calls), target, callbacks)
    decreases |calls|
  {
    hide Register, RequestOf, Count;
    if calls != [] {
      var call := calls[0];
      var s' := Request(s, call.target, call.msgId, call.done);
      assert Request(Credit(s, target, callbacks), call.target, call.msgId, call.done) == Credit(s', target, callbacks);
      CreditIsRequested(s', target, callbacks, calls[1..]);
    }
  }

  lemma EmptyCredit(s: State, target: Target)
    requires Inv(Credit(s, target, []))
    ensures Inv(s)
  {
    hide Sorted, NonNegative, AllCarried, CarriedBy, Callbacks;
    var c := Credit(s, target, []);
    forall t ensures TableInv(s, t) {
      assert TableInv(c, t) && Table(c, t) == Table(s, t);
      assert Count(c.invoked, t) == Count(s.invoked, t);
    }
    forall r | r in s.inFlight ensures BatchInv(s, r) {
      assert BatchInv(c, r) && Table(c, s.inFlight[r].target) == Table(s, s.inFlight[r].target);
    }
  }

  lemma MultisetSplits(callbacks: seq<Callback>)
    requires callbacks != []
    ensures multiset(callbacks) == multiset([callbacks[0]]) + multiset(callbacks[1..])
  {
    assert callbacks == [callbacks[0]] + callbacks[1..];
  }

  lemma CreditSplits(s: State, target: Target, callbacks: seq<Callback>)
    requires callbacks != []
    ensures Credit(s, target, callbacks) == Credit(Credit(s, target, [callbacks[0]]), target, callbacks[1..])
    ensures multiset(callbacks) == multiset([callbacks[0]]) + multiset(callbacks[1..])
  {
    MultisetSplits(callbacks);
    var c, x, y := Count(s.invoked, target), multiset([callbacks[0]]), multiset(callbacks[1..]);
    var first := Credit(s, target, [callbacks[0]]);
    assert Count(first.invoked, target) == c + x;
    assert (c + x) + y == c + multiset(callbacks);
    hide Count;
    assert first.invoked[target := (c + x) + y] == s.invoked[target := c + multiset(callbacks)];
  }

  lemma CreditCounts(s: State, target: Target, callbacks: seq<Callback>)
    ensures var s' := Credit(s, target, callbacks);
            && s'.inFlight == s.inFlight
            && Count(s'.invoked, target) == Count(s.invoked, target) + multiset(callbacks)
            && forall t | t != target :: Count(s'.invoked, t) == Count(s.invoked, t)
  {}

  lemma RequestAllFields(s: State, calls: seq<Call>)
    ensures RequestAll(s, calls).invoked == s.invoked && RequestAll(s, calls).inFlight == s.inFlight
    decreases |calls|
  {
    if calls != [] {
      var call := calls[0];
      RequestAllFields(Request(s, call.target, call.msgId, call.done), calls[1..]);
    }
  }

  /** Running the released callbacks pays exactly the credit, whatever they register meanwhile. */
  lemma InvokePaysCredit(s: State, target: Target, callbacks: seq<Callback>, reaction: Callback -> seq<Call>)
    requires Inv(Credit(s, target, callbacks))
    ensures var s' := Invoke(s, target, callbacks, reaction);
            && Inv(s') && s'.inFlight == s.inFlight
            && Count(s'.invoked, target) == Count(s.invoked, target) + multiset(callbacks)
            && forall t | t != target :: Count(s'.invoked, t) == Count(s.invoked, t)
    decreases |callbacks|
  {
    hide Inv, RequestAll, Credit, Count;
    if callbacks == [] {
      EmptyCredit(s, target);
    } else {
      var called := Credit(s, target, [callbacks[0]]);
      var calls := reaction(callbacks[0]);
      CreditSplits(s, target, callbacks);
      CreditCounts(s, target, [callbacks[0]]);
      RequestAllKeepsInv(Credit(called, target, callbacks[1..]), calls);
      CreditIsRequested(called, target, callbacks[1..], calls);
      RequestAllFields(called, calls);
      InvokePaysCredit(RequestAll(called, calls), target, callbacks[1..], reaction);
    }
  }

  lemma EraseFields(s: State, target: Target, requestId: RequestId)
    ensures var s' := Erase(s, target, requestId);
            && Table(s', target) == Without(Table(s, target), requestId)
            && (forall t | t != target :: Table(s', t) == Table(s, t))
            && s' == s.(plain := s'.plain, channels := s'.channels)
            && forall c | c in s'.channels :: c in s.channels && (s'.channels[c] == s.channels[c] || s'.channels[c] != [])
  {
    hide Without;
    if Table(s, target) == [] {
      NothingErased(requestId);
    }
  }

  lemma NothingErased(requestId: RequestId)
    ensures Without([], requestId) == [] && Released([], requestId) == []
  {}

  /** A reply takes one request out of flight and credits its callbacks. */
  lemma EraseCredits(s: State, requestId: RequestId)
    requires Inv(s) && requestId in s.inFlight
    ensures var target := s.inFlight[requestId].target;
            var erased := Erase(s.(inFlight := s.inFlight - {requestId}), target, requestId);
            Inv(Credit(erased, target, Released(Table(s, target), requestId)))
  {
    hide Table, Erase, Without, Released, CarriedBy, Callbacks, Sorted, NonNegative, AllCarried;
    var target := s.inFlight[requestId].target;
    var landed := s.(inFlight := s.inFlight - {requestId});
    var erased := Erase(landed, target, requestId);
    var released := Released(Table(s, target), requestId);
    var s' := Credit(erased, target, released);
    SameTables(s, landed);
    SameTables(erased, s');
    EraseFields(landed, target, requestId);
    forall t ensures TableInv(s', t) {
      assert TableInv(s, t);
      EraseKeepsTable(s, s', requestId, t);
    }
    forall r | r in s'.inFlight ensures BatchInv(s', r) {
      EraseKeepsBatch(s, s', requestId, r);
    }
  }

  lemma EraseKeepsBatch(s: State, s': State, requestId: RequestId, r: RequestId)
    requires requestId in s.inFlight && r in s'.inFlight && s'.inFlight == s.inFlight - {requestId}
    requires var target := s.inFlight[requestId].target;
             && Table(s', target) == Without(Table(s, target), requestId)
             && forall t | t != target :: Table(s', t) == Table(s, t)
    requires s'.lastId == s.lastId && BatchInv(s, r)
    ensures BatchInv(s', r)
  {
    hide Table, Without, CarriedBy;
    WithoutCarries(Table(s, s.inFlight[requestId].target), requestId, r);
  }

  lemma SameTables(s: State, s': State)
    requires s'.plain == s.plain && s'.channels == s.channels
    ensures forall t :: Table(s', t) == Table(s, t)
  {}

  lemma EraseKeepsTable(s: State, s': State, requestId: RequestId, t: Target)
    requires requestId in s.inFlight && TableInv(s, t)
    requires var target := s.inFlight[requestId].target;
             && Table(s', t) == (if t == target then Without(Table(s, t), requestId) else Table(s, t))
             && s'.inFlight == s.inFlight - {requestId}
             && s'.resolveQueued == s.resolveQueued && s'.registered == s.registered
             && Count(s'.invoked, t)
                == Count(s.invoked, t) + if t == target then multiset(Released(Table(s, t), requestId)) else multiset{}
    ensures TableInv(s', t)
  {
    hide Table, Without, Released, CarriedBy, Callbacks, Sorted, Count;
    var table, table' := Table(s, t), Table(s', t);
    if t == s.inFlight[requestId].target {
      WithoutMembers(table, requestId);
      WithoutSorted(table, requestId);
      WithoutCallbacks(table, requestId);
      forall r ensures CarriedBy(table', r) == if r == requestId then [] else CarriedBy(table, r) {
        WithoutCarries(table, requestId, r);
      }
    }
  }

  lemma ReplyKeepsInv(s: State, requestId: RequestId, reaction: Callback -> seq<Call>)
    requires Inv(s) && requestId in s.inFlight
    ensures Inv(Reply(s, requestId, reaction))
  {
    hide Inv, Erase, Released, Table, Invoke;
    var target := s.inFlight[requestId].target;
    EraseCredits(s, requestId);
    InvokePaysCredit(Erase(s.(inFlight := s.inFlight - {requestId}), target, requestId),
                     target, Released(Table(s, target), requestId), reaction);
  }

  // ----- Resolving -----

  lemma ResolveKeepsTable(s: State, ids: map<Target, RequestId>, s': State, t: Target)
    requires Inv(s) && Resolve(s, ids, s')
    ensures TableInv(s', t)
    ensures t in ids ==> CarriedBy(Table(s', t), ids[t]) == Uncarried(Table(s, t))
    ensures t in ids ==> forall r | 0 < r <= s.lastId :: CarriedBy(Table(s', t), r) == CarriedBy(Table(s, t), r)
  {
    hide Table, Assign, Uncarried, CarriedBy, Callbacks, Count;
    var table, table' := Table(s, t), Table(s', t);
    assert TableInv(s, t);
    NothingUncarried(table);
    if t in ids {
      AssignKeeps(table, ids[t]);
      assert table' == Assign(table, ids[t]);
      forall r | r > 0 && CarriedBy(table', r) != []
        ensures r in s'.inFlight && s'.inFlight[r].target == t
      {
        if r != ids[t] {
          assert CarriedBy(table', r) == CarriedBy(table, r);
        }
      }
    }
  }

  lemma ResolveKeepsInv(s: State, ids: map<Target, RequestId>, s': State)
    requires Inv(s) && Resolve(s, ids, s')
    ensures Inv(s')
  {
    forall t ensures TableInv(s', t) {
      ResolveKeepsTable(s, ids, s', t);
    }
    forall r | r in s'.inFlight ensures BatchInv(s', r) {
      ResolveKeepsBatch(s, ids, s', r);
    }
    forall c | c in s'.channels ensures s'.channels[c] != [] {
      var t := Channel(c);
      assert Table(s', t) == (if t in ids then Assign(Table(s, t), ids[t]) else Table(s, t));
      assert Table(s, t) == s.channels[c] != [];
    }
  }

  lemma ResolveKeepsBatch(s: State, ids: map<Target, RequestId>, s': State, r: RequestId)
    requires Inv(s) && Resolve(s, ids, s') && r in s'.inFlight
    ensures BatchInv(s', r)
  {
    hide Table, Assign, Uncarried, CarriedBy, TableInv;
    if r in s.inFlight {
      assert BatchInv(s, r);
      ResolveKeepsTable(s, ids, s', s.inFlight[r].target);
    } else {
      var t :| t in ids && ids[t] == r;
      ResolveKeepsTable(s, ids, s', t);
    }
  }

  // ----- Runs -----

  datatype Event =
    | Registered(call: Call)
    | Resolved(ids: map<Target, RequestId>)
    | Replied(requestId: RequestId)

  ghost predicate Step(s: State, event: Event, s': State, reaction: Callback -> seq<Call>) {
    match event
    case Registered(call) => s' == Request(s, call.target, call.msgId, call.done)
    case Resolved(ids) => s.resolveQueued && Resolve(s, ids, s')
    case Replied(r) => r in s.inFlight && s' == Reply(s, r, reaction)
  }

  ghost predicate Run(states: seq<State>, events: seq<Event>, reaction: Callback -> seq<Call>) {
    && |states| == |events| + 1
    && states[0] == INITIAL
    && forall i | 0 <= i < |events| :: Step(states[i], events[i], states[i + 1], reaction)
  }

  lemma StepKeepsInv(s: State, event: Event, s': State, reaction: Callback -> seq<Call>)
    requires Inv(s) && Step(s, event, s', reaction)
    ensures Inv(s')
  {
    hide Inv, Request, Resolve, Reply;
    match event
    case Registered(call) => RequestKeepsInv(s, call.target, call.msgId, call.done);
    case Resolved(ids) => ResolveKeepsInv(s, ids, s');
    case Replied(r) => ReplyKeepsInv(s, r, reaction);
  }

  lemma InitialInv()
    ensures Inv(INITIAL)
  {}

  /** The invariant holds after every event of every run. */
  lemma {:induction false} RunKeepsInv(states: seq<State>, events: seq<Event>, reaction: Callback -> seq<Call>, i: nat)
    requires Run(states, events, reaction) && i < |states|
    ensures Inv(states[i])
  {
    hide Inv, Step;
    if i == 0 {
      InitialInv();
    } else {
      RunKeepsInv(states, events, reaction, i - 1);
      StepKeepsInv(states[i - 1], events[i - 1], states[i], reaction);
    }
  }

  // ----- What the invariant means -----

  lemma {:induction false} CarriedAt(table: seq<Pending>, i: nat)
    requires i < |table|
    ensures table[i].msgId in CarriedBy(table, table[i].requestId)
  {
    if i > 0 {
      CarriedAt(table[1..], i - 1);
    }
  }

  lemma {:induction false} CarriedEntry(table: seq<Pending>, r: RequestId, msgId: MsgId) returns (i: nat)
    requires msgId in CarriedBy(table, r)
    ensures i < |table| && table[i].msgId == msgId && table[i].requestId == r
  {
    if table[0].requestId == r && table[0].msgId == msgId {
      i := 0;
    } else {
      i := CarriedEntry(table[1..], r, msgId);
      i := i + 1;
    }
  }

  /** Every message id is asked for by at most one request in flight, and waits for that one. */
  lemma NoMessageIsAskedTwice(s: State, r: RequestId, q: RequestId, msgId: MsgId)
    requires Inv(s) && r in s.inFlight && q in s.inFlight
    requires s.inFlight[r].target == s.inFlight[q].target
    requires msgId in s.inFlight[r].ids && msgId in s.inFlight[q].ids
    ensures r == q
  {
    assert BatchInv(s, r) && BatchInv(s, q);
    var table := Table(s, s.inFlight[r].target);
    assert TableInv(s, s.inFlight[r].target);
    hide CarriedBy, Table;
    var i := CarriedEntry(table, r, msgId);
    var j := CarriedEntry(table, q, msgId);
    if i < j {
      Increasing(table, i, j);
    } else if j < i {
      Increasing(table, j, i);
    }
  }

  lemma {:induction false} Increasing(table: seq<Pending>, i: nat, j: nat)
    requires Sorted(table) && i < j < |table|
    ensures table[i].msgId < table[j].msgId
  {
    if i == 0 {
      assert table[j] == table[1..][j - 1];
    } else {
      Increasing(table[1..], i - 1, j - 1);
    }
  }

  /** An entry that no request carries has a resolve queued behind it. */
  lemma UncarriedIsQueued(s: State, target: Target, i: nat)
    requires Inv(s) && i < |Table(s, target)| && Table(s, target)[i].requestId <= 0
    ensures s.resolveQueued
  {
    assert TableInv(s, target) && Table(s, target)[i] in Table(s, target);
  }

  /**
   * A reply invokes exactly the callbacks of the entries that the request carried, each as often as
   * it was registered there; no other callback of any target is invoked.
   */
  lemma ReplyInvokesItsBatch(s: State, requestId: RequestId, reaction: Callback -> seq<Call>)
    requires Inv(s) && requestId in s.inFlight
    ensures var target := s.inFlight[requestId].target;
            var s' := Reply(s, requestId, reaction);
            && Count(s'.invoked, target)
               == Count(s.invoked, target) + multiset(Released(Table(s, target), requestId))
            && (forall t | t != target :: Count(s'.invoked, t) == Count(s.invoked, t))
            && s'.inFlight == s.inFlight - {requestId}
  {
    hide Inv, Released, Table, Invoke, Count;
    var target := s.inFlight[requestId].target;
    var landed := s.(inFlight := s.inFlight - {requestId});
    EraseCredits(s, requestId);
    EraseFields(landed, target, requestId);
    InvokePaysCredit(Erase(landed, target, requestId), target, Released(Table(s, target), requestId), reaction);
  }

  /** Nothing is lost: once nothing is queued or in flight, every callback registered was invoked. */
  lemma QuietMeansAllInvoked(s: State, target: Target)
    requires Inv(s) && !s.resolveQueued && s.inFlight == map[]
    ensures Table(s, target) == [] && Count(s.registered, target) == Count(s.invoked, target)
  {
    var table := Table(s, target);
    assert TableInv(s, target);
    if table != [] {
      assert table[0] in table;
      CarriedAt(table, 0);
    }
  }

  // ----- What was given is what was registered -----

  /** The callback that a call gives for a target */
  function GivenByCall(call: Call, target: Target): multiset<Callback> {
    match call.done
    case None => multiset{}
    case Some(c) => if call.target == target then multiset{c} else multiset{}
  }

  function GivenByCalls(calls: seq<Call>, target: Target): multiset<Callback>
    decreases |calls|
  {
    if calls == [] then multiset{} else GivenByCall(calls[0], target) + GivenByCalls(calls[1..], target)
  }

  /** What the callbacks give that a reply calls, one after the other */
  function GivenByReactions(callbacks: seq<Callback>, reaction: Callback -> seq<Call>, target: Target)
    : multiset<Callback>
    decreases |callbacks|
  {
    if callbacks == [] then multiset{}
    else GivenByCalls(reaction(callbacks[0]), target) + GivenByReactions(callbacks[1..], reaction, target)
  }

  function GivenByEvent(s: State, event: Event, reaction: Callback -> seq<Call>, target: Target): multiset<Callback> {
    match event
    case Registered(call) => GivenByCall(call, target)
    case Resolved(_) => multiset{}
    case Replied(r) =>
      if r !in s.inFlight then multiset{}
      else GivenByReactions(Released(Table(s, s.inFlight[r].target), r), reaction, target)
  }

  ghost function GivenInRun(states: seq<State>, events: seq<Event>, reaction: Callback -> seq<Call>, i: nat,
                            target: Target): multiset<Callback>
    requires Run(states, events, reaction) && i < |states|
  {
    if i == 0 then multiset{}
    else
      GivenInRun(states, events, reaction, i - 1, target)
      + GivenByEvent(states[i - 1], events[i - 1], reaction, target)
  }

  lemma RequestRegisters(s: State, call: Call, target: Target)
    ensures Count(Request(s, call.target, call.msgId, call.done).registered, target)
         == Count(s.registered, target) + GivenByCall(call, target)
  {
    hide Register, RequestOf;
  }

  lemma {:induction false} RequestAllRegisters(s: State, calls: seq<Call>, target: Target)
    ensures Count(RequestAll(s, calls).registered, target)
         == Count(s.registered, target) + GivenByCalls(calls, target)
    decreases |calls|
  {
    hide Request, Count, GivenByCall;
    if calls != [] {
      RequestRegisters(s, calls[0], target);
      RequestAllRegisters(Request(s, calls[0].target, calls[0].msgId, calls[0].done), calls[1..], target);
    }
  }

  lemma {:induction false} InvokeRegisters(s: State, of: Target, callbacks: seq<Callback>,
                                           reaction: Callback -> seq<Call>, target: Target)
    ensures Count(Invoke(s, of, callbacks, reaction).registered, target)
         == Count(s.registered, target) + GivenByReactions(callbacks, reaction, target)
    decreases |callbacks|
  {
    hide RequestAll, Count, GivenByCalls;
    if callbacks != [] {
      var called := Credit(s, of, [callbacks[0]]);
      RequestAllRegisters(called, reaction(callbacks[0]), target);
      InvokeRegisters(RequestAll(called, reaction(callbacks[0])), of, callbacks[1..], reaction, target);
    }
  }

  lemma EraseRegisters(s: State, target: Target, requestId: RequestId)
    ensures Erase(s, target, requestId).registered == s.registered
  {
    hide Without;
  }

  lemma StepRegisters(s: State, event: Event, s': State, reaction: Callback -> seq<Call>, target: Target)
    requires Step(s, event, s', reaction)
    ensures Count(s'.registered, target) == Count(s.registered, target) + GivenByEvent(s, event, reaction, target)
  {
    hide Request, Invoke, Erase, Count, Released, Table, GivenByCall, GivenByReactions;
    match event
    case Registered(call) => RequestRegisters(s, call, target);
    case Resolved(ids) =>
    case Replied(r) =>
      var of := s.inFlight[r].target;
      var landed := s.(inFlight := s.inFlight - {r});
      EraseRegisters(landed, of, r);
      InvokeRegisters(Erase(landed, of, r), of, Released(Table(s, of), r), reaction, target);
  }

  /** Behind a call the table has an entry for the id that holds the given callback, and one without a request is queued. */
  lemma RequestHolds(s: State, target: Target, msgId: MsgId, done: Option<Callback>)
    ensures var t := Request(s, target, msgId, done);
            exists r, callbacks ::
              && HasEntry(Table(t, target), msgId, r, callbacks)
              && (done.Some? ==> callbacks != [] && callbacks[|callbacks| - 1] == done.value)
              && (r == 0 ==> t.resolveQueued)
  {
    hide Register, RequestOf, HasEntry, Request, Table;
    RequestFields(s, target, msgId, done);
    var r, callbacks := RegisterHolds(Table(s, target), msgId, done);
  }

  /**
   * At any time of any run, the callbacks registered for a target are those that its callers gave, the calls made by
   * callbacks included.
   */
  lemma {:induction false} RegisteredIsGiven(states: seq<State>, events: seq<Event>, reaction: Callback -> seq<Call>,
                                             i: nat, target: Target)
    requires Run(states, events, reaction) && i < |states|
    ensures Count(states[i].registered, target) == GivenInRun(states, events, reaction, i, target)
  {
    hide Step, Count, GivenByEvent;
    if i == 0 {
      NothingRegistered(target);
    } else {
      RegisteredIsGiven(states, events, reaction, i - 1, target);
      StepRegisters(states[i - 1], events[i - 1], states[i], reaction, target);
    }
  }

  lemma NothingRegistered(target: Target)
    ensures Count(INITIAL.registered, target) == multiset{}
  {}

  /** In a quiet state of a run every callback that was ever given was called, as often as it was given. */
  lemma QuietMeansAllGivenCalled(states: seq<State>, events: seq<Event>, reaction: Callback -> seq<Call>, i: nat,
                                 target: Target)
    requires Run(states, events, reaction) && i < |states|
    requires !states[i].resolveQueued && states[i].inFlight == map[]
    ensures Count(states[i].invoked, target) == GivenInRun(states, events, reaction, i, target)
  {
    hide Run, Inv, Count, GivenInRun, Table;
    RunKeepsInv(states, events, reaction, i);
    RegisteredIsGiven(states, events, reaction, i, target);
    QuietMeansAllInvoked(states[i], target);
  }

  // ----- The callbacks of a reply, in order -----

  /** The callbacks are released entry by entry in the order of the table, each list in its own order. */
  lemma {:induction false} ReleasedInOrder(a: seq<Pending>, b: seq<Pending>, requestId: RequestId)
    ensures Released(a + b, requestId) == Released(a, requestId) + Released(b, requestId)
  {
    if a == [] {
      assert [] + b == b;
    } else {
      ReleasedInOrder(a[1..], b, requestId);
      assert (a + b)[1..] == a[1..] + b && (a + b)[0] == a[0];
    }
  }

  lemma {:induction false} WithoutInOrder(a: seq<Pending>, b: seq<Pending>, requestId: RequestId)
    ensures Without(a + b, requestId) == Without(a, requestId) + Without(b, requestId)
  {
    if a == [] {
      assert [] + b == b;
    } else {
      WithoutInOrder(a[1..], b, requestId);
      assert (a + b)[1..] == a[1..] + b && (a + b)[0] == a[0];
    }
  }

  lemma {:induction false} UncarriedInOrder(a: seq<Pending>, b: seq<Pending>)
    ensures Uncarried(a + b) == Uncarried(a) + Uncarried(b)
  {
    hide Uncarried;
    NoneUncarried();
    if a == [] {
      assert [] + b == b;
    } else {
      var p, rest := a[0], a[1..];
      UncarriedInOrder(rest, b);
      assert a == [p] + rest && a + b == [p] + (rest + b);
      UncarriedCons(p, rest);
      UncarriedCons(p, rest + b);
    }
  }

  lemma NoneUncarried()
    ensures Uncarried([]) == []
  {}

  lemma UncarriedCons(p: Pending, rest: seq<Pending>)
    ensures Uncarried([p] + rest) == (if p.requestId > 0 then [] else [p.msgId]) + Uncarried(rest)
  {
    assert ([p] + rest)[1..] == rest;
  }

  lemma ReleasedOfOne(p: Pending, requestId: RequestId)
    ensures p.requestId == requestId ==> Released([p], requestId) == p.callbacks && Without([p], requestId) == []
    ensures p.requestId != requestId ==> Released([p], requestId) == [] && Without([p], requestId) == [p]
    ensures Uncarried([p]) == if p.requestId > 0 then [] else [p.msgId]
  {
    assert [p][1..] == [];
  }

  // ----- The methods of ApiWrap -----

  lemma UncarriedFrom(table: seq<Pending>, i: nat)
    requires i < |table|
    ensures Uncarried(table[i..])
         == (if table[i].requestId > 0 then [] else [table[i].msgId]) + Uncarried(table[i + 1..])
  {
    assert table[i..][1..] == table[i + 1..];
  }

  lemma AssignFrom(table: seq<Pending>, i: nat, r: RequestId)
    requires i < |table|
    ensures Assign(table[i..], r)
         == [if table[i].requestId > 0 then table[i] else table[i].(requestId := r)] + Assign(table[i + 1..], r)
  {
    assert table[i..][1..] == table[i + 1..];
  }

  lemma WithoutFrom(table: seq<Pending>, i: nat, r: RequestId)
    requires i < |table|
    ensures Without(table[i..], r)
         == (if table[i].requestId == r then [] else [table[i]]) + Without(table[i + 1..], r)
    ensures Released(table[i..], r)
         == (if table[i].requestId == r then table[i].callbacks else []) + Released(table[i + 1..], r)
  {
    assert table[i..][1..] == table[i + 1..];
  }

  /** `collectMessageIds` */
  method CollectMessageIds(requests: seq<Pending>) returns (result: seq<MsgId>)
    ensures result == Uncarried(requests)
  {
    result := [];
    var i := 0;
    while i < |requests|
      invariant 0 <= i <= |requests|
      invariant result + Uncarried(requests[i..]) == Uncarried(requests)
    {
      UncarriedFrom(requests, i);
      if !(requests[i].requestId > 0) {
        result := result + [requests[i].msgId];
      }
      i := i + 1;
    }
  }

  /** The loop that writes a sent request into the entries it carries. */
  method AssignRequest(table: seq<Pending>, requestId: RequestId) returns (requests: seq<Pending>)
    ensures requests == Assign(table, requestId)
  {
    requests := table;
    var i := 0;
    while i < |requests|
      invariant 0 <= i <= |requests| == |table|
      invariant requests[i..] == table[i..]
      invariant requests[..i] + Assign(table[i..], requestId) == Assign(table, requestId)
    {
      AssignFrom(table, i, requestId);
      if !(requests[i].requestId > 0) {
        requests := requests[i := requests[i].(requestId := requestId)];
      }
      i := i + 1;
    }
  }

  /** The loop that erases the entries of a request and moves their callbacks out. */
  method EraseRequest(table: seq<Pending>, requestId: RequestId)
    returns (requests: seq<Pending>, callbacks: seq<Callback>)
    ensures requests == Without(table, requestId)
    ensures callbacks == Released(table, requestId)
  {
    NothingErased(requestId);
    hide Without, Released;
    requests, callbacks := table, [];
    assert table[|table|..] == [];
    var i := 0;
    ghost var at := 0;
    while i < |requests|
      invariant 0 <= i <= |requests| && 0 <= at <= |table|
      invariant requests[i..] == table[at..]
      invariant requests[..i] + Without(table[at..], requestId) == Without(table, requestId)
      invariant callbacks + Released(table[at..], requestId) == Released(table, requestId)
      decreases |table| - at
    {
      assert requests[i] == requests[i..][0] == table[at];
      WithoutFrom(table, at, requestId);
      if requests[i].requestId == requestId {
        var list := requests[i].callbacks;
        if callbacks == [] {
          callbacks := list;
        } else {
          callbacks := callbacks + list;
        }
        assert requests[i + 1..] == table[at + 1..];
        requests := requests[..i] + requests[i + 1..];
      } else {
        i := i + 1;
      }
      at := at + 1;
    }
  }

  // `Resolve` with the targets `todo` still to come, in three parts.
  ghost predicate IdsSoFar(s: State, ids: map<Target, RequestId>, s': State, todo: set<Target>) {
    && s'.registered == s.registered && s'.invoked == s.invoked && !s'.resolveQueued && s'.lastId >= s.lastId
    && (forall t :: t in ids <==> t !in todo && Uncarried(Table(s, t)) != [])
    && (forall t | t in ids :: s.lastId < ids[t] <= s'.lastId)
    && (forall t, u | t in ids && u in ids && t != u :: ids[t] != ids[u])
  }

  ghost predicate TablesSoFar(s: State, ids: map<Target, RequestId>, s': State, todo: set<Target>) {
    && (forall t :: Table(s', t) == if t in ids then Assign(Table(s, t), ids[t]) else Table(s, t))
    && (forall c :: c in s'.channels <==> c in s.channels && (s.channels[c] != [] || Channel(c) in todo))
  }

  ghost predicate FlightSoFar(s: State, ids: map<Target, RequestId>, s': State) {
    && (forall r :: r in s'.inFlight <==> r in s.inFlight || exists t :: t in ids && ids[t] == r)
    && (forall r | r in s.inFlight && r in s'.inFlight :: s'.inFlight[r] == s.inFlight[r])
    && (forall t | t in ids && ids[t] in s'.inFlight :: s'.inFlight[ids[t]] == Batch(t, Uncarried(Table(s, t))))
  }

  ghost predicate ResolvedSoFar(s: State, ids: map<Target, RequestId>, s': State, todo: set<Target>) {
    IdsSoFar(s, ids, s', todo) && TablesSoFar(s, ids, s', todo) && FlightSoFar(s, ids, s')
  }

  lemma FlightOne(s: State, ids: map<Target, RequestId>, before: State, t: Target, r: RequestId, after: State)
    requires FlightSoFar(s, ids, before) && t !in ids && r !in before.inFlight
    requires after.inFlight == before.inFlight[r := Batch(t, Uncarried(Table(s, t)))]
    ensures FlightSoFar(s, ids[t := r], after)
  {
    hide Table, Uncarried;
    var ids' := ids[t := r];
    assert ids'[t] == r;
    forall q ensures q in after.inFlight <==> q in s.inFlight || exists u :: u in ids' && ids'[u] == q {
      if exists u :: u in ids && ids[u] == q {
        var u :| u in ids && ids[u] == q;
        assert u in ids' && ids'[u] == q;
      }
    }
  }

  lemma TablesOne(s: State, ids: map<Target, RequestId>, before: State, todo: set<Target>, t: Target, r: RequestId,
                  after: State)
    requires TablesSoFar(s, ids, before, todo) && t !in ids
    requires Table(after, t) == Assign(Table(before, t), r)
    requires forall u | u != t :: Table(after, u) == Table(before, u)
    requires after.channels.Keys == before.channels.Keys
    requires t.Channel? ==> t.id in s.channels && s.channels[t.id] != []
    ensures TablesSoFar(s, ids[t := r], after, todo - {t})
  {
    hide Table, Assign;
  }

  /** One more target gets its request. */
  lemma ResolveOne(s: State, ids: map<Target, RequestId>, before: State, todo: set<Target>, t: Target, after: State)
    requires ResolvedSoFar(s, ids, before, todo) && t in todo && Uncarried(Table(s, t)) != []
    requires forall r | r in s.inFlight :: r <= s.lastId
    requires var r := before.lastId + 1;
             && Table(after, t) == Assign(Table(before, t), r)
             && (forall u | u != t :: Table(after, u) == Table(before, u))
             && after == before.(plain := after.plain, channels := after.channels, lastId := r,
                                 inFlight := before.inFlight[r := Batch(t, Uncarried(Table(s, t)))])
             && after.channels.Keys == before.channels.Keys
             && (t.Channel? ==> t.id in s.channels && s.channels[t.id] != [])
    ensures ResolvedSoFar(s, ids[t := before.lastId + 1], after, todo - {t})
  {
    hide Table, Assign, Uncarried;
    var r := before.lastId + 1;
    assert r !in before.inFlight;
    FlightOne(s, ids, before, t, r, after);
    TablesOne(s, ids, before, todo, t, r, after);
    IdsOne(s, ids, before, todo, t, r, after);
    hide *;
  }

  lemma IdsOne(s: State, ids: map<Target, RequestId>, before: State, todo: set<Target>, t: Target, r: RequestId,
               after: State)
    requires IdsSoFar(s, ids, before, todo) && t in todo && Uncarried(Table(s, t)) != []
    requires r == before.lastId + 1 == after.lastId
    requires after.registered == before.registered && after.invoked == before.invoked
    requires after.resolveQueued == before.resolveQueued
    ensures IdsSoFar(s, ids[t := r], after, todo - {t})
  {
    hide Table, Uncarried;
  }

  /** A target with nothing to ask for is done; an empty channel map is erased. */
  lemma ResolveNone(s: State, ids: map<Target, RequestId>, before: State, todo: set<Target>, t: Target, after: State)
    requires ResolvedSoFar(s, ids, before, todo) && t in todo && Uncarried(Table(s, t)) == []
    requires after == before.(channels := after.channels)
    requires after.channels
          == if t.Channel? && t.id in before.channels && before.channels[t.id] == []
             then before.channels - {t.id} else before.channels
    requires t.Channel? ==> t.id in s.channels && t.id in before.channels
    ensures ResolvedSoFar(s, ids, after, todo - {t})
  {
    TablesNone(s, ids, before, todo, t, after);
    IdsNone(s, ids, before, todo, t, after);
    hide *;
  }

  lemma IdsNone(s: State, ids: map<Target, RequestId>, before: State, todo: set<Target>, t: Target, after: State)
    requires IdsSoFar(s, ids, before, todo) && FlightSoFar(s, ids, before) && Uncarried(Table(s, t)) == []
    requires after == before.(channels := after.channels)
    ensures IdsSoFar(s, ids, after, todo - {t}) && FlightSoFar(s, ids, after)
  {
    hide Table, Uncarried;
  }

  lemma TablesNone(s: State, ids: map<Target, RequestId>, before: State, todo: set<Target>, t: Target, after: State)
    requires TablesSoFar(s, ids, before, todo) && t in todo && t !in ids
    requires after == before.(channels := after.channels)
    requires after.channels
          == if t.Channel? && t.id in before.channels && before.channels[t.id] == []
             then before.channels - {t.id} else before.channels
    requires t.Channel? ==> t.id in s.channels && t.id in before.channels
    ensures TablesSoFar(s, ids, after, todo - {t})
  {
    hide Assign;
    assert Table(before, t) == Table(s, t);
    forall u ensures Table(after, u) == Table(before, u) {
    }
  }

  /** The part of `ApiWrap` that batches message data. The in-flight map and the histories are ghost. */
  class MessageDataApi {
    var messageDataRequests: seq<Pending>
    var channelMessageDataRequests: map<nat, seq<Pending>>
    var resolveDelayed: bool
    var lastRequestId: RequestId
    ghost var inFlight: map<RequestId, Batch>
    ghost var registered: map<Target, multiset<Callback>>
    ghost var invoked: map<Target, multiset<Callback>>
    const reaction: Callback -> seq<Call>

    ghost function Abs(): State
      reads this
    {
      State(messageDataRequests, channelMessageDataRequests, resolveDelayed, lastRequestId,
            inFlight, registered, invoked)
    }

    constructor (reaction: Callback -> seq<Call>)
      ensures Abs() == INITIAL && this.reaction == reaction
    {
      messageDataRequests, channelMessageDataRequests := [], map[];
      resolveDelayed, lastRequestId := false, 0;
      inFlight, registered, invoked := map[], map[], map[];
      this.reaction := reaction;
    }

    /** `requestMessageData` */
    method RequestMessageData(target: Target, msgId: MsgId, done: Option<Callback>)
      modifies this
      ensures Abs() == Request(old(Abs()), target, msgId, done)
      ensures exists r, callbacks ::
                && HasEntry(Table(Abs(), target), msgId, r, callbacks)
                && (done.Some? ==> callbacks != [] && callbacks[|callbacks| - 1] == done.value)
                && (r == 0 ==> resolveDelayed)
    {
      RequestHolds(Abs(), target, msgId, done);
      hide Register, RequestOf, Count, HasEntry;
      var requests := if target.Plain? then messageDataRequests
                      else if target.id in channelMessageDataRequests then channelMessageDataRequests[target.id]
                      else [];
      requests := Register(requests, msgId, done);
      if target.Plain? {
        messageDataRequests := requests;
      } else {
        channelMessageDataRequests := channelMessageDataRequests[target.id := requests];
      }
      registered := registered[target := Count(registered, target) + multiset(Added(done))];
      if RequestOf(requests, msgId) == 0 {
        resolveDelayed := true;
      }
    }

    /** `finalizeMessageDataRequest`, the handler of a reply and of a failure. */
    method FinalizeMessageDataRequest(target: Target, requestId: RequestId)
      requires requestId in inFlight && inFlight[requestId].target == target
      modifies this
      ensures Abs() == Reply(old(Abs()), requestId, reaction)
    {
      hide Released, Without, Erase, Invoke, Table;
      ghost var s := Abs();
      inFlight := inFlight - {requestId};
      ghost var landed := Abs();
      assert landed == s.(inFlight := s.inFlight - {requestId});
      SameTables(s, landed);
      var callbacks := EraseFromTable(target, requestId);
      ghost var erased := Abs();
      InvokeCallbacks(target, callbacks);
      assert Abs() == Invoke(erased, target, callbacks, reaction);
      assert Reply(s, requestId, reaction) == Invoke(erased, target, callbacks, reaction);
    }

    /** Its first part: the entries of the request leave their map, and an empty channel map goes. */
    method EraseFromTable(target: Target, requestId: RequestId) returns (callbacks: seq<Callback>)
      modifies this
      ensures Abs() == Erase(old(Abs()), target, requestId)
      ensures callbacks == Released(Table(old(Abs()), target), requestId)
    {
      NothingErased(requestId);
      hide Released, Without;
      if target.Plain? {
        messageDataRequests, callbacks := EraseRequest(messageDataRequests, requestId);
      } else if target.id !in channelMessageDataRequests {
        callbacks := [];
      } else {
        var requests;
        requests, callbacks := EraseRequest(channelMessageDataRequests[target.id], requestId);
        channelMessageDataRequests := channelMessageDataRequests[target.id := requests];
        if requests == [] {
          channelMessageDataRequests := channelMessageDataRequests - {target.id};
          assert channelMessageDataRequests == old(channelMessageDataRequests) - {target.id};
        }
      }
    }

    /** Its last loop; a callback may call back into `RequestMessageData`. */
    method InvokeCallbacks(target: Target, callbacks: seq<Callback>)
      modifies this
      ensures Abs() == Invoke(old(Abs()), target, callbacks, reaction)
    {
      hide RequestAll;
      ghost var result := Invoke(Abs(), target, callbacks, reaction);
      var i := 0;
      while i < |callbacks|
        invariant 0 <= i <= |callbacks|
        invariant Invoke(Abs(), target, callbacks[i..], reaction) == result
      {
        assert callbacks[i..][1..] == callbacks[i + 1..] && callbacks[i..][0] == callbacks[i];
        CallBack(target, callbacks[i]);
        i := i + 1;
      }
      assert callbacks[|callbacks|..] == [];
    }

    /** One callback. */
    method CallBack(target: Target, callback: Callback)
      modifies this
      ensures Abs() == RequestAll(Credit(old(Abs()), target, [callback]), reaction(callback))
    {
      hide Request;
      invoked := invoked[target := Count(invoked, target) + multiset([callback])];
      var calls := reaction(callback);
      ghost var result := RequestAll(Abs(), calls);
      var j := 0;
      while j < |calls|
        invariant 0 <= j <= |calls|
        invariant RequestAll(Abs(), calls[j..]) == result
      {
        assert calls[j..][1..] == calls[j + 1..] && calls[j..][0] == calls[j];
        RequestMessageData(calls[j].target, calls[j].msgId, calls[j].done);
        j := j + 1;
      }
      assert calls[|calls|..] == [];
    }

    /** Sends the request for `ids` of `target` and returns its fresh id. */
    method SendRequest(target: Target, ids: seq<MsgId>) returns (requestId: RequestId)
      modifies this`lastRequestId, this`inFlight
      ensures requestId == lastRequestId == old(lastRequestId) + 1
      ensures inFlight == old(inFlight)[requestId := Batch(target, ids)]
    {
      lastRequestId := lastRequestId + 1;
      requestId := lastRequestId;
      inFlight := inFlight[requestId := Batch(target, ids)];
    }

    /** The part of `resolveMessageDatas` for the plain map. */
    method ResolvePlain(ghost s: State, ghost ids0: map<Target, RequestId>, ghost todo: set<Target>)
      returns (ghost ids: map<Target, RequestId>)
      requires ResolvedSoFar(s, ids0, Abs(), todo) && Plain in todo
      requires forall r | r in s.inFlight :: r <= s.lastId
      modifies this
      ensures ResolvedSoFar(s, ids, Abs(), todo - {Plain})
      ensures channelMessageDataRequests == old(channelMessageDataRequests)
    {
      hide Uncarried, Assign;
      ids := ids0;
      ghost var before := Abs();
      assert Table(before, Plain) == Table(s, Plain);
      var msgIds := CollectMessageIds(messageDataRequests);
      if msgIds != [] {
        var requestId := SendRequest(Plain, msgIds);
        messageDataRequests := AssignRequest(messageDataRequests, requestId);
        hide ResolvedSoFar;
        ResolveOne(s, ids, before, todo, Plain, Abs());
        ids := ids[Plain := requestId];
      } else {
        hide ResolvedSoFar;
        ResolveNone(s, ids, before, todo, Plain, Abs());
      }
    }

    /** One pass of its loop over the channel maps. */
    method ResolveChannel(channel: nat, ghost s: State, ghost ids0: map<Target, RequestId>, ghost todo: set<Target>)
      returns (ghost ids: map<Target, RequestId>)
      requires ResolvedSoFar(s, ids0, Abs(), todo) && Channel(channel) in todo
      requires forall r | r in s.inFlight :: r <= s.lastId
      requires channel in channelMessageDataRequests && channel in s.channels
      modifies this
      ensures ResolvedSoFar(s, ids, Abs(), todo - {Channel(channel)})
      ensures channelMessageDataRequests.Keys >= old(channelMessageDataRequests.Keys) - {channel}
    {
      hide Uncarried, Assign;
      ids := ids0;
      ghost var before := Abs();
      assert Table(before, Channel(channel)) == Table(s, Channel(channel));
      if channelMessageDataRequests[channel] == [] {
        NothingToCarry();
        channelMessageDataRequests := channelMessageDataRequests - {channel};
        hide ResolvedSoFar;
        ResolveNone(s, ids, before, todo, Channel(channel), Abs());
        return;
      }
      var msgIds := CollectMessageIds(channelMessageDataRequests[channel]);
      if msgIds != [] {
        var requestId := SendRequest(Channel(channel), msgIds);
        var requests := AssignRequest(channelMessageDataRequests[channel], requestId);
        channelMessageDataRequests := channelMessageDataRequests[channel := requests];
        hide ResolvedSoFar;
        ResolveOne(s, ids, before, todo, Channel(channel), Abs());
        ids := ids[Channel(channel) := requestId];
      } else {
        hide ResolvedSoFar;
        ResolveNone(s, ids, before, todo, Channel(channel), Abs());
      }
    }

    /** The loop over the channel maps. */
    method ResolveChannels(ghost s: State, ghost ids0: map<Target, RequestId>)
      returns (ghost ids: map<Target, RequestId>)
      requires channelMessageDataRequests.Keys == s.channels.Keys
      requires ResolvedSoFar(s, ids0, Abs(), ChannelsOf(s.channels.Keys))
      requires forall r | r in s.inFlight :: r <= s.lastId
      modifies this
      ensures ResolvedSoFar(s, ids, Abs(), {})
    {
      hide ResolvedSoFar;
      ids := ids0;
      var left := channelMessageDataRequests.Keys;
      while left != {}
        invariant left <= channelMessageDataRequests.Keys && left <= s.channels.Keys
        invariant ResolvedSoFar(s, ids, Abs(), ChannelsOf(left))
        decreases left
      {
        var channel :| channel in left;
        ids := ResolveChannel(channel, s, ids, ChannelsOf(left));
        assert ChannelsOf(left - {channel}) == ChannelsOf(left) - {Channel(channel)};
        left := left - {channel};
      }
      assert ChannelsOf(left) == {};
    }

    /** `resolveMessageDatas` */
    method ResolveMessageDatas() returns (ghost ids: map<Target, RequestId>)
      requires Inv(Abs())
      modifies this
      ensures Resolve(old(Abs()), ids, Abs())
    {
      ghost var s := Abs();
      BatchesAreOld(s);
      hide Inv, Resolve, ResolvedSoFar, ChannelsOf;
      resolveDelayed := false;
      if messageDataRequests == [] && channelMessageDataRequests == map[] {
        ids := map[];
        NothingPending(s);
        return;
      }
      NothingResolved(s, Abs());
      ids := ResolvePlain(s, map[], {Plain} + ChannelsOf(s.channels.Keys));
      assert ({Plain} + ChannelsOf(s.channels.Keys)) - {Plain} == ChannelsOf(s.channels.Keys) by {
        OnlyChannels(s.channels.Keys);
      }
      ids := ResolveChannels(s, ids);
      AllResolved(s, ids, Abs());
    }
  }

  function ChannelsOf(ids: set<nat>): set<Target> {
    set c | c in ids :: Channel(c)
  }

  lemma OnlyChannels(ids: set<nat>)
    ensures Plain !in ChannelsOf(ids)
  {}

  lemma BatchesAreOld(s: State)
    requires Inv(s)
    ensures forall r | r in s.inFlight :: r <= s.lastId
  {
    forall r | r in s.inFlight ensures r <= s.lastId {
      assert BatchInv(s, r);
    }
  }

  lemma NothingPending(s: State)
    requires s.plain == [] && s.channels == map[]
    ensures Resolve(s, map[], s.(resolveQueued := false))
  {
    hide Assign;
    NothingToCarry();
    SameTables(s, s.(resolveQueued := false));
  }

  lemma NothingResolved(s: State, s': State)
    requires s' == s.(resolveQueued := false)
    ensures ResolvedSoFar(s, map[], s', {Plain} + ChannelsOf(s.channels.Keys))
  {
    hide Assign;
    SameTables(s, s');
    NothingToCarry();
  }

  lemma AllResolved(s: State, ids: map<Target, RequestId>, s': State)
    requires ResolvedSoFar(s, ids, s', {})
    ensures Resolve(s, ids, s')
  {
    hide Assign, Uncarried, Table;
  }

  lemma NothingToCarry()
    ensures Uncarried([]) == []
  {}
}
