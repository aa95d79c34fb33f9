/** `ApiWrap`: loading the lists of dialogs, page by page, with the pinned ones beside them. */
module Dialogs {
  import opened Options

  type RequestId = nat

  datatype Folder = Main | InFolder(id: nat)

  datatype Offset = Offset(date: int, id: int, peer: int)

  const NO_OFFSET := Offset(0, 0, 0)

  datatype LoadState = LoadState(
    offset: Offset, requestId: RequestId, listReceived: bool, pinnedRequestId: RequestId, pinnedReceived: bool)

  const FRESH := LoadState(NO_OFFSET, 0, false, 0, false)

  /** A list request asks for the page behind an offset. */
  datatype Flight = List(folder: Folder, from: Offset) | Pinned(folder: Folder)

  /**
   * The load states of the main list and of the folders, the limit by date, the requests in flight, how often a
   * load of a folder was started and reported as done, the folders that got a "not modified" answer, and whether
   * a state was used that is not there.
   */
  datatype Loads = Loads(
    states: map<Folder, LoadState>, till: int, mayBlock: bool, blocked: bool,
    flights: map<RequestId, Flight>, lastId: RequestId,
    started: multiset<Folder>, posted: multiset<Folder>, stuck: set<Folder>, crashed: bool)

  const START := Loads(map[Main := FRESH], 0, false, false, map[], 0, multiset{Main}, multiset{}, {}, false)

  // ----- Requests -----

  function Refreshed(s: Loads): Loads {
    var waiting := Main in s.states && !s.states[Main].listReceived && s.till > 0;
    s.(mayBlock := waiting,
       blocked := waiting && s.states[Main].requestId == 0 && 0 < s.states[Main].offset.date <= s.till)
  }

  function SendList(s: Loads, folder: Folder): Loads
    requires folder in s.states
  {
    s.(lastId := s.lastId + 1, flights := s.flights[s.lastId + 1 := List(folder, s.states[folder].offset)],
       states := s.states[folder := s.states[folder].(requestId := s.lastId + 1)])
  }

  /** `requestPinnedDialogs` */
  function RequestPinned(s: Loads, folder: Folder): Loads {
    if folder !in s.states || s.states[folder].pinnedReceived || s.states[folder].pinnedRequestId != 0 then s
    else
      s.(lastId := s.lastId + 1, flights := s.flights[s.lastId + 1 := Pinned(folder)],
         states := s.states[folder := s.states[folder].(pinnedRequestId := s.lastId + 1)])
  }

  /** `requestMoreDialogs` */
  function RequestMore(s: Loads, folder: Folder): Loads {
    if folder !in s.states || s.states[folder].requestId != 0 || s.blocked then s
    else
      var sent := RequestPinned(SendList(s, folder), folder);
      if folder == Main then Refreshed(sent) else sent
  }

  /** `requestDialogs`: a folder may be loaded again, the main list never. */
  function Request(s: Loads, folder: Folder): Loads {
    var there :=
      if folder == Main || folder in s.states then s
      else s.(states := s.states[folder := FRESH], started := s.started + multiset{folder});
    RequestMore(there, folder)
  }

  /** What `requestMoreDialogsIfNeeded` learns: are exceptions being loaded, and is an archive needed? */
  datatype Needs = Needs(exceptions: bool, archive: Option<nat>)

  function MoreIfNeeded(s: Loads, needs: Needs): Loads {
    if needs.exceptions then s
    else if Main in s.states && !s.states[Main].listReceived then
      if s.states[Main].requestId != 0 then s else Request(s, Main)
    else if needs.archive.Some? then RequestMore(s, InFolder(needs.archive.value))
    else s
  }

  // ----- Answers -----

  /** `dialogsLoadFinish` */
  function Finish(s: Loads, folder: Folder): Loads {
    if folder in s.states && s.states[folder].listReceived && s.states[folder].pinnedReceived
    then s.(states := s.states - {folder}, posted := s.posted + multiset{folder})
    else s
  }

  /** A page brings the next offset; without a date in it, it is the last one. */
  datatype Answer = NotModified | Whole | Slice(next: Offset)

  /** The list of the folder is complete. */
  function Received(s: Loads, id: RequestId, folder: Folder): Loads
    requires folder in s.states
  {
    Finish(s.(flights := s.flights - {id}, states := s.states[folder := s.states[folder].(listReceived := true)]),
           folder)
  }

  function ListLanded(s: Loads, id: RequestId, answer: Answer): Loads
    requires id in s.flights
  {
    var folder := s.flights[id].folder;
    var landed := s.(flights := s.flights - {id});
    if folder !in s.states then landed
    else
      match answer
      case NotModified => landed.(stuck := s.stuck + {folder})
      case Whole => Received(s, id, folder)
      case Slice(next) =>
        if next.date != 0
        then landed.(states := s.states[folder := s.states[folder].(offset := next, requestId := 0)])
        else Received(s, id, folder)
  }

  function ListDone(s: Loads, id: RequestId, answer: Answer, needs: Needs): Loads
    requires id in s.flights
  {
    var landed := ListLanded(s, id, answer);
    var refreshed :=
      if s.flights[id].folder == Main && (Main !in landed.states || !landed.states[Main].listReceived)
      then Refreshed(landed) else landed;
    MoreIfNeeded(refreshed, needs)
  }

  /** The fail handler takes the state of the folder to be there. */
  function ListFailed(s: Loads, id: RequestId): Loads
    requires id in s.flights
  {
    var folder := s.flights[id].folder;
    if folder !in s.states then s.(crashed := true)
    else s.(flights := s.flights - {id}, states := s.states[folder := s.states[folder].(requestId := 0)])
  }

  /** An answer or a failure of the pinned request */
  function PinnedDone(s: Loads, id: RequestId): Loads
    requires id in s.flights
  {
    var folder := s.flights[id].folder;
    var landed := s.(flights := s.flights - {id});
    if folder !in s.states then landed
    else
      Finish(landed.(states := s.states[folder := s.states[folder].(pinnedRequestId := 0, pinnedReceived := true)]),
             folder)
  }

  function TillSet(s: Loads, till: int): Loads {
    if Main !in s.states then s else Request(Refreshed(s.(till := till)), Main)
  }

  /** The support mode changes the limit and asks for nothing. */
  function LimitChanged(s: Loads, till: int): Loads { Refreshed(s.(till := till)) }

  datatype Event =
    | RequestDialogs(folder: Folder)
    | RequestPinnedDialogs(folder: Folder)
    | RequestIfNeeded(needs: Needs)
    | MoreByDate(till: int)
    | LimitSet(till: int)
    | ListAnswer(id: RequestId, answer: Answer, needs: Needs)
    | ListFailure(id: RequestId)
    | PinnedAnswer(id: RequestId)

  predicate Enabled(s: Loads, e: Event) {
    match e
    case ListAnswer(id, _, _) => id in s.flights && s.flights[id].List?
    case ListFailure(id) => id in s.flights && s.flights[id].List?
    case PinnedAnswer(id) => id in s.flights && s.flights[id].Pinned?
    case _ => true
  }

  // ----- The invariant -----

  /** A request in flight has a live state that records it and still waits for its answer. */
  ghost predicate FlightOk(s: Loads, id: RequestId) {
    id in s.flights ==>
      var folder := s.flights[id].folder;
      && 0 < id <= s.lastId && folder in s.states
      && match s.flights[id]
         case List(_, from) =>
           && s.states[folder].requestId == id && s.states[folder].offset == from
           && !s.states[folder].listReceived && folder !in s.stuck
         case Pinned(_) => s.states[folder].pinnedRequestId == id && !s.states[folder].pinnedReceived
  }

  /** A live state is not finished, and the requests that it records are in flight or answered. */
  ghost predicate StateOk(s: Loads, folder: Folder) {
    && s.started[folder] == s.posted[folder] + (if folder in s.states then 1 else 0)
    && (folder in s.stuck ==> folder in s.states)
    && (folder in s.states ==>
          var state := s.states[folder];
          && !(state.listReceived && state.pinnedReceived)
          && (state.listReceived ==> state.requestId != 0 && folder !in s.stuck)
          && (folder in s.stuck ==> state.requestId != 0)
          && (state.requestId != 0 && !state.listReceived && folder !in s.stuck
              ==> state.requestId in s.flights && s.flights[state.requestId] == List(folder, state.offset))
          && (state.pinnedReceived ==> state.pinnedRequestId == 0)
          && (state.pinnedRequestId != 0
              ==> state.pinnedRequestId in s.flights && s.flights[state.pinnedRequestId] == Pinned(folder)))
  }

  ghost predicate Inv(s: Loads) {
    (forall id :: FlightOk(s, id)) && (forall folder :: StateOk(s, folder)) && !s.crashed
  }

  /** At most one list request and one pinned request of a folder are in flight. */
  lemma OneRequestOfAKind(s: Loads, i: RequestId, j: RequestId)
    requires Inv(s) && i in s.flights && j in s.flights
    requires s.flights[i].folder == s.flights[j].folder && s.flights[i].List? == s.flights[j].List?
    ensures i == j
  {
    assert FlightOk(s, i) && FlightOk(s, j);
  }

  lemma NewIdIsFree(s: Loads)
    requires Inv(s)
    ensures s.lastId + 1 !in s.flights
  {
    assert FlightOk(s, s.lastId + 1);
  }

  lemma SendListKeepsInv(s: Loads, folder: Folder)
    requires Inv(s) && folder in s.states && s.states[folder].requestId == 0
    ensures Inv(SendList(s, folder))
  {
    var sent := SendList(s, folder);
    NewIdIsFree(s);
    assert StateOk(s, folder);
    forall id
      ensures FlightOk(sent, id)
    {
      assert FlightOk(s, id);
    }
    forall other
      ensures StateOk(sent, other)
    {
      assert StateOk(s, other);
    }
  }

  lemma RequestPinnedKeepsInv(s: Loads, folder: Folder)
    requires Inv(s)
    ensures Inv(RequestPinned(s, folder))
  {
    var sent := RequestPinned(s, folder);
    NewIdIsFree(s);
    assert StateOk(s, folder);
    forall id
      ensures FlightOk(sent, id)
    {
      assert FlightOk(s, id);
    }
    forall other
      ensures StateOk(sent, other)
    {
      assert StateOk(s, other);
    }
  }

  lemma RefreshedKeepsInv(s: Loads)
    requires Inv(s)
    ensures Inv(Refreshed(s))
  {
    SameRequests(s, Refreshed(s));
  }

  /** The limit by date plays no role in the invariant. */
  lemma SameRequests(s: Loads, t: Loads)
    requires Inv(s) && t == s.(mayBlock := t.mayBlock, blocked := t.blocked, till := t.till)
    ensures Inv(t)
  {
    forall id
      ensures FlightOk(t, id)
    {
      assert FlightOk(s, id);
    }
    forall folder
      ensures StateOk(t, folder)
    {
      assert StateOk(s, folder);
    }
  }

  lemma RequestMoreKeepsInv(s: Loads, folder: Folder)
    requires Inv(s)
    ensures Inv(RequestMore(s, folder))
  {
    hide Inv, SendList, RequestPinned, Refreshed;
    if !(folder !in s.states || s.states[folder].requestId != 0 || s.blocked) {
      SendListKeepsInv(s, folder);
      RequestPinnedKeepsInv(SendList(s, folder), folder);
      RefreshedKeepsInv(RequestPinned(SendList(s, folder), folder));
    }
  }

  lemma RequestKeepsInv(s: Loads, folder: Folder)
    requires Inv(s)
    ensures Inv(Request(s, folder))
  {
    hide RequestMore;
    if folder == Main || folder in s.states {
      RequestMoreKeepsInv(s, folder);
    } else {
      var there := s.(states := s.states[folder := FRESH], started := s.started + multiset{folder});
      forall id
        ensures FlightOk(there, id)
      {
        assert FlightOk(s, id);
      }
      forall other
        ensures StateOk(there, other)
      {
        assert StateOk(s, other);
      }
      RequestMoreKeepsInv(there, folder);
    }
  }

  lemma MoreIfNeededKeepsInv(s: Loads, needs: Needs)
    requires Inv(s)
    ensures Inv(MoreIfNeeded(s, needs))
  {
    hide Inv, Request, RequestMore;
    RequestKeepsInv(s, Main);
    if needs.archive.Some? {
      RequestMoreKeepsInv(s, InFolder(needs.archive.value));
    }
  }

  // ----- Answers keep it -----

  lemma ReceivedKeepsInv(s: Loads, id: RequestId, folder: Folder)
    requires Inv(s) && id in s.flights && s.flights[id].List? && s.flights[id].folder == folder && folder in s.states
    ensures Inv(Received(s, id, folder))
  {
    var t := Received(s, id, folder);
    assert FlightOk(s, id) && StateOk(s, folder);
    forall i
      ensures FlightOk(t, i)
    {
      assert FlightOk(s, i);
    }
    forall other
      ensures StateOk(t, other)
    {
      assert StateOk(s, other);
    }
  }

  lemma ListLandedKeepsInv(s: Loads, id: RequestId, answer: Answer)
    requires Inv(s) && id in s.flights && s.flights[id].List?
    ensures Inv(ListLanded(s, id, answer))
  {
    hide Received;
    var t, folder := ListLanded(s, id, answer), s.flights[id].folder;
    assert FlightOk(s, id) && StateOk(s, folder);
    if answer.Whole? || (answer.Slice? && answer.next.date == 0) {
      ReceivedKeepsInv(s, id, folder);
    } else {
      forall i
        ensures FlightOk(t, i)
      {
        assert FlightOk(s, i);
      }
      forall other
        ensures StateOk(t, other)
      {
        assert StateOk(s, other);
      }
    }
  }

  lemma PinnedDoneKeepsInv(s: Loads, id: RequestId)
    requires Inv(s) && id in s.flights && s.flights[id].Pinned?
    ensures Inv(PinnedDone(s, id))
  {
    var t, folder := PinnedDone(s, id), s.flights[id].folder;
    assert FlightOk(s, id) && StateOk(s, folder);
    forall i
      ensures FlightOk(t, i)
    {
      assert FlightOk(s, i);
    }
    forall other
      ensures StateOk(t, other)
    {
      assert StateOk(s, other);
    }
  }

  lemma ListFailedKeepsInv(s: Loads, id: RequestId)
    requires Inv(s) && id in s.flights && s.flights[id].List?
    ensures Inv(ListFailed(s, id))
  {
    var t, folder := ListFailed(s, id), s.flights[id].folder;
    assert FlightOk(s, id) && StateOk(s, folder);
    forall i
      ensures FlightOk(t, i)
    {
      assert FlightOk(s, i);
    }
    forall other
      ensures StateOk(t, other)
    {
      assert StateOk(s, other);
    }
  }

  lemma ListDoneKeepsInv(s: Loads, id: RequestId, answer: Answer, needs: Needs)
    requires Inv(s) && id in s.flights && s.flights[id].List?
    ensures Inv(ListDone(s, id, answer, needs))
  {
    hide Inv, ListLanded, MoreIfNeeded, Refreshed;
    ListLandedKeepsInv(s, id, answer);
    var landed := ListLanded(s, id, answer);
    RefreshedKeepsInv(landed);
    MoreIfNeededKeepsInv(landed, needs);
    MoreIfNeededKeepsInv(Refreshed(landed), needs);
  }

  lemma TillSetKeepsInv(s: Loads, till: int)
    requires Inv(s)
    ensures Inv(TillSet(s, till))
  {
    hide Inv, Request, Refreshed;
    SameRequests(s, s.(till := till));
    RefreshedKeepsInv(s.(till := till));
    RequestKeepsInv(Refreshed(s.(till := till)), Main);
  }

  function Step(s: Loads, e: Event): Loads
    requires Enabled(s, e)
  {
    match e
    case RequestDialogs(folder) => Request(s, folder)
    case RequestPinnedDialogs(folder) => RequestPinned(s, folder)
    case RequestIfNeeded(needs) => MoreIfNeeded(s, needs)
    case MoreByDate(till) => TillSet(s, till)
    case LimitSet(till) => LimitChanged(s, till)
    case ListAnswer(id, answer, needs) => ListDone(s, id, answer, needs)
    case ListFailure(id) => ListFailed(s, id)
    case PinnedAnswer(id) => PinnedDone(s, id)
  }

  lemma StepKeepsInv(s: Loads, e: Event)
    requires Inv(s) && Enabled(s, e)
    ensures Inv(Step(s, e))
  {
    hide Inv, Request, RequestPinned, MoreIfNeeded, TillSet, ListDone, ListFailed, PinnedDone;
    match e
    case RequestDialogs(folder) => RequestKeepsInv(s, folder);
    case RequestPinnedDialogs(folder) => RequestPinnedKeepsInv(s, folder);
    case RequestIfNeeded(needs) => MoreIfNeededKeepsInv(s, needs);
    case MoreByDate(till) => TillSetKeepsInv(s, till);
    case LimitSet(till) => SameRequests(s, LimitChanged(s, till));
    case ListAnswer(id, answer, needs) => ListDoneKeepsInv(s, id, answer, needs);
    case ListFailure(id) => ListFailedKeepsInv(s, id);
    case PinnedAnswer(id) => PinnedDoneKeepsInv(s, id);
  }

  predicate AllEnabled(s: Loads, run: seq<Event>)
    decreases |run|
  {
    run == [] || (Enabled(s, run[0]) && AllEnabled(Step(s, run[0]), run[1..]))
  }

  function Run(s: Loads, run: seq<Event>): Loads
    requires AllEnabled(s, run)
    decreases |run|
  {
    if run == [] then s else Run(Step(s, run[0]), run[1..])
  }

  lemma {:induction false} RunKeepsInv(s: Loads, run: seq<Event>)
    requires Inv(s) && AllEnabled(s, run)
    ensures Inv(Run(s, run))
    decreases |run|
  {
    hide Inv, Step;
    if run != [] {
      StepKeepsInv(s, run[0]);
      RunKeepsInv(Step(s, run[0]), run[1..]);
    }
  }

  // ----- What follows -----

  /** From the start: no state is missing when it is used, and a load is reported exactly once, when it ends. */
  lemma ReportedOnce(run: seq<Event>, folder: Folder)
    requires AllEnabled(START, run)
    ensures var s := Run(START, run);
            && !s.crashed
            && s.started[folder] == s.posted[folder] + (if folder in s.states then 1 else 0)
            && (folder in s.states ==> !(s.states[folder].listReceived && s.states[folder].pinnedReceived))
  {
    assert forall id :: FlightOk(START, id);
    assert forall f :: StateOk(START, f);
    RunKeepsInv(START, run);
    assert StateOk(Run(START, run), folder);
  }

  /** No list request of the folder is in flight. */
  ghost predicate NoList(s: Loads, folder: Folder) {
    forall id | id in s.flights && s.flights[id].List? :: s.flights[id].folder != folder
  }

  /** A list request in flight asks for the page behind the last one that came, and a page moves the load to its own end. */
  lemma PagesFollow(s: Loads, id: RequestId, next: Offset)
    requires Inv(s) && id in s.flights && s.flights[id].List? && next.date != 0
    ensures var folder := s.flights[id].folder;
            && folder in s.states && s.flights[id].from == s.states[folder].offset
            && var t := ListLanded(s, id, Slice(next));
               folder in t.states && t.states[folder].offset == next && t.states[folder].requestId == 0
  {
    assert FlightOk(s, id);
  }

  /** When the list was received, no list request of the folder is in flight, and none can be sent for this state. */
  lemma NoListAfterReceived(s: Loads, e: Event, folder: Folder)
    requires Inv(s) && Enabled(s, e)
    requires folder in s.states && s.states[folder].listReceived
    ensures folder in Step(s, e).states ==> Step(s, e).states[folder].listReceived
    ensures NoList(Step(s, e), folder)
  {
    hide Step;
    StepKeepsInv(s, e);
    assert StateOk(s, folder);
    ReceivedStays(s, e, folder);
    forall id | id in Step(s, e).flights
      ensures Step(s, e).flights[id].List? ==> Step(s, e).flights[id].folder != folder
    {
      assert FlightOk(Step(s, e), id);
    }
  }

  /** If the folder is still being loaded, its list was received. */
  predicate Done(s: Loads, folder: Folder) {
    folder in s.states ==> s.states[folder].listReceived && s.states[folder].requestId != 0
  }

  lemma RequestMoreKeepsDone(s: Loads, other: Folder, folder: Folder)
    requires Done(s, folder)
    ensures Done(RequestMore(s, other), folder)
  {}

  lemma MoreIfNeededKeepsDone(s: Loads, needs: Needs, folder: Folder)
    requires Done(s, folder)
    ensures Done(MoreIfNeeded(s, needs), folder)
  {
    hide Done, RequestMore;
    RequestMoreKeepsDone(s, Main, folder);
    if needs.archive.Some? {
      RequestMoreKeepsDone(s, InFolder(needs.archive.value), folder);
    }
  }

  lemma ListDoneKeepsDone(s: Loads, id: RequestId, answer: Answer, needs: Needs, folder: Folder)
    requires Inv(s) && id in s.flights && s.flights[id].List? && Done(s, folder)
    ensures Done(ListDone(s, id, answer, needs), folder)
  {
    hide Inv, MoreIfNeeded, ListLanded, Refreshed, Done;
    LandedIsAnother(s, id, folder);
    var landed := ListLanded(s, id, answer);
    ListLandedKeepsDone(s, id, answer, folder);
    RefreshedKeepsDone(landed, folder);
    MoreIfNeededKeepsDone(landed, needs, folder);
    MoreIfNeededKeepsDone(Refreshed(landed), needs, folder);
  }

  lemma RequestKeepsDone(s: Loads, other: Folder, folder: Folder)
    requires folder in s.states && Done(s, folder)
    ensures Done(Request(s, other), folder)
  {
    hide RequestMore;
    if other == Main || other in s.states {
      RequestMoreKeepsDone(s, other, folder);
    } else {
      RequestMoreKeepsDone(s.(states := s.states[other := FRESH], started := s.started + multiset{other}), other, folder);
    }
  }

  lemma TillSetKeepsDone(s: Loads, till: int, folder: Folder)
    requires folder in s.states && Done(s, folder)
    ensures Done(TillSet(s, till), folder)
  {
    hide Request;
    RequestKeepsDone(Refreshed(s.(till := till)), Main, folder);
  }

  lemma PinnedDoneKeepsDone(s: Loads, id: RequestId, folder: Folder)
    requires id in s.flights && Done(s, folder)
    ensures Done(PinnedDone(s, id), folder)
  {}

  lemma ListLandedKeepsDone(s: Loads, id: RequestId, answer: Answer, folder: Folder)
    requires id in s.flights && s.flights[id].folder != folder && Done(s, folder)
    ensures Done(ListLanded(s, id, answer), folder)
  {}

  lemma RefreshedKeepsDone(s: Loads, folder: Folder)
    requires Done(s, folder)
    ensures Done(Refreshed(s), folder)
  {}

  lemma LandedIsAnother(s: Loads, id: RequestId, folder: Folder)
    requires Inv(s) && id in s.flights && s.flights[id].List? && Done(s, folder)
    ensures s.flights[id].folder != folder
  {
    assert FlightOk(s, id);
  }

  lemma ReceivedStays(s: Loads, e: Event, folder: Folder)
    requires Inv(s) && Enabled(s, e)
    requires folder in s.states && Done(s, folder)
    ensures Done(Step(s, e), folder)
  {
    hide Inv, ListDone, RequestMore, MoreIfNeeded, Refreshed, Finish;
    match e
    case RequestDialogs(other) =>
      RequestKeepsDone(s, other, folder);
    case RequestPinnedDialogs(other) =>
    case RequestIfNeeded(needs) => MoreIfNeededKeepsDone(s, needs, folder);
    case MoreByDate(till) => TillSetKeepsDone(s, till, folder);
    case LimitSet(till) => RefreshedKeepsDone(s.(till := till), folder);
    case ListAnswer(id, answer, needs) => ListDoneKeepsDone(s, id, answer, needs, folder);
    case ListFailure(id) => LandedIsAnother(s, id, folder);
    case PinnedAnswer(id) => PinnedDoneKeepsDone(s, id, folder);
  }

  // ----- Over whole runs -----

  predicate Grows(s: Loads, t: Loads) { s.started <= t.started && s.posted <= t.posted && s.stuck <= t.stuck }

  lemma RequestMoreGrows(s: Loads, folder: Folder)
    ensures Grows(s, RequestMore(s, folder))
  {}

  lemma RequestGrows(s: Loads, folder: Folder)
    ensures Grows(s, Request(s, folder))
  {
    hide RequestMore;
    if folder == Main || folder in s.states {
      RequestMoreGrows(s, folder);
    } else {
      RequestMoreGrows(s.(states := s.states[folder := FRESH], started := s.started + multiset{folder}), folder);
    }
  }

  lemma MoreIfNeededGrows(s: Loads, needs: Needs)
    ensures Grows(s, MoreIfNeeded(s, needs))
  {
    hide RequestMore;
    RequestGrows(s, Main);
    if needs.archive.Some? {
      RequestMoreGrows(s, InFolder(needs.archive.value));
    }
  }

  lemma ListLandedGrows(s: Loads, id: RequestId, answer: Answer)
    requires id in s.flights
    ensures Grows(s, ListLanded(s, id, answer))
  {}

  lemma StepGrows(s: Loads, e: Event)
    requires Enabled(s, e)
    ensures Grows(s, Step(s, e))
  {
    hide RequestMore, Request, MoreIfNeeded, ListLanded;
    match e
    case RequestDialogs(folder) => RequestGrows(s, folder);
    case RequestPinnedDialogs(folder) =>
    case RequestIfNeeded(needs) => MoreIfNeededGrows(s, needs);
    case MoreByDate(till) => RequestGrows(Refreshed(s.(till := till)), Main);
    case LimitSet(_) =>
    case ListAnswer(id, answer, needs) =>
      var landed := ListLanded(s, id, answer);
      ListLandedGrows(s, id, answer);
      MoreIfNeededGrows(landed, needs);
      MoreIfNeededGrows(Refreshed(landed), needs);
    case ListFailure(id) =>
    case PinnedAnswer(id) =>
  }

  lemma {:induction false} RunGrows(s: Loads, run: seq<Event>)
    requires AllEnabled(s, run)
    ensures Grows(s, Run(s, run))
    decreases |run|
  {
    hide Step;
    if run != [] {
      StepGrows(s, run[0]);
      RunGrows(Step(s, run[0]), run[1..]);
    }
  }

  lemma NotInFlight(s: Loads, folder: Folder)
    requires Inv(s) && folder in s.states && (s.states[folder].listReceived || folder in s.stuck)
    ensures NoList(s, folder)
  {
    forall id | id in s.flights
      ensures s.flights[id].List? ==> s.flights[id].folder != folder
    {
      assert FlightOk(s, id);
    }
  }

  /** Until its load is reported as done, no list request follows a received list. */
  lemma {:induction false} NoListUntilReported(s: Loads, run: seq<Event>, folder: Folder)
    requires Inv(s) && AllEnabled(s, run) && folder in s.states && s.states[folder].listReceived
    ensures var t := Run(s, run);
            t.posted[folder] == s.posted[folder]
            ==> folder in t.states && t.states[folder].listReceived && NoList(t, folder)
    decreases |run|
  {
    hide Step, Inv, Grows;
    if run == [] {
      NotInFlight(s, folder);
    } else {
      var next := Step(s, run[0]);
      StepKeepsInv(s, run[0]);
      NoListAfterReceived(s, run[0], folder);
      CountsOfStep(s, run[0], folder);
      CountsOfRun(next, run[1..], folder);
      if folder in next.states {
        NoListUntilReported(next, run[1..], folder);
      }
    }
  }

  lemma CountsOfStep(s: Loads, e: Event, folder: Folder)
    requires Inv(s) && Enabled(s, e) && folder in s.states
    ensures s.posted[folder] <= Step(s, e).posted[folder]
    ensures folder !in Step(s, e).states ==> s.posted[folder] < Step(s, e).posted[folder]
  {
    hide Step;
    StepKeepsInv(s, e);
    StepGrows(s, e);
    assert StateOk(s, folder) && StateOk(Step(s, e), folder);
  }

  lemma CountsOfRun(s: Loads, run: seq<Event>, folder: Folder)
    requires AllEnabled(s, run)
    ensures s.posted[folder] <= Run(s, run).posted[folder]
  {
    hide Run;
    RunGrows(s, run);
  }

  /** A "not modified" answer ends the load for good: nothing is requested or received any more. */
  lemma StuckForGood(s: Loads, run: seq<Event>, folder: Folder)
    requires Inv(s) && AllEnabled(s, run) && folder in s.stuck
    ensures var t := Run(s, run);
            && folder in t.states && !t.states[folder].listReceived && t.states[folder].requestId != 0
            && NoList(t, folder)
  {
    hide Run, Inv;
    RunGrows(s, run);
    RunKeepsInv(s, run);
    StuckState(Run(s, run), folder);
    NotInFlight(Run(s, run), folder);
  }

  lemma StuckState(s: Loads, folder: Folder)
    requires Inv(s) && folder in s.stuck
    ensures folder in s.states && !s.states[folder].listReceived && s.states[folder].requestId != 0
  {
    assert StateOk(s, folder);
  }

  /** A run with such an answer to the first request of the main list */
  lemma NotModifiedSticks()
    ensures var run := [RequestDialogs(Main), ListAnswer(1, NotModified, Needs(false, None))];
            && AllEnabled(START, run)
            && Main in Run(START, run).stuck && Run(START, run).flights == map[2 := Pinned(Main)]
  {
    hide Step, Enabled;
    var ask, answer := RequestDialogs(Main), ListAnswer(1, NotModified, Needs(false, None));
    var run := [ask, answer];
    FirstRequests();
    FirstNotModified();
    assert run[1..] == [answer] && [answer][1..] == [];
  }

  /** The main list with its first two requests in flight */
  const FIRST := START.(states := map[Main := FRESH.(requestId := 1, pinnedRequestId := 2)], lastId := 2,
                        flights := map[1 := List(Main, NO_OFFSET), 2 := Pinned(Main)])

  lemma FirstRequests()
    ensures Enabled(START, RequestDialogs(Main)) && Step(START, RequestDialogs(Main)) == FIRST
  {
    var sent := START.(states := map[Main := FRESH.(requestId := 1)], lastId := 1, flights := map[1 := List(Main, NO_OFFSET)]);
    assert SendList(START, Main) == sent;
    assert RequestPinned(sent, Main) == FIRST;
    assert Refreshed(FIRST) == FIRST;
  }

  lemma FirstNotModified()
    ensures var answer := ListAnswer(1, NotModified, Needs(false, None));
            && Enabled(FIRST, answer)
            && Main in Step(FIRST, answer).stuck && Step(FIRST, answer).flights == map[2 := Pinned(Main)]
  {
    assert FIRST.flights - {1} == map[2 := Pinned(Main)];
  }

  // ----- A load goes on -----

  /** The next page of the folder was asked for. */
  predicate AskedForPage(t: Loads, id: RequestId, folder: Folder, from: Offset) {
    id in t.flights && t.flights[id] == List(folder, from)
  }

  lemma PinnedKeepsFlights(s: Loads, folder: Folder, id: RequestId)
    requires id <= s.lastId && id in s.flights
    ensures id in RequestPinned(s, folder).flights && RequestPinned(s, folder).flights[id] == s.flights[id]
  {}

  /** A folder that is idle and not blocked is asked for the page behind its offset. */
  lemma RequestMoreSends(s: Loads, folder: Folder)
    requires folder in s.states && s.states[folder].requestId == 0 && !s.blocked
    ensures AskedForPage(RequestMore(s, folder), s.lastId + 1, folder, s.states[folder].offset)
  {
    hide RequestPinned;
    PinnedKeepsFlights(SendList(s, folder), folder, s.lastId + 1);
  }

  /** What is asked for next: the main list until it was received, and then the archive if it is needed. */
  lemma MoreIsAskedFor(s: Loads, needs: Needs)
    requires !needs.exceptions && !s.blocked
    ensures Main in s.states && !s.states[Main].listReceived && s.states[Main].requestId == 0
        ==> AskedForPage(MoreIfNeeded(s, needs), s.lastId + 1, Main, s.states[Main].offset)
    ensures needs.archive.Some? && (Main !in s.states || s.states[Main].listReceived)
        ==> var folder := InFolder(needs.archive.value);
            folder in s.states && s.states[folder].requestId == 0
            ==> AskedForPage(MoreIfNeeded(s, needs), s.lastId + 1, folder, s.states[folder].offset)
  {
    hide RequestMore;
    if Main in s.states && s.states[Main].requestId == 0 {
      RequestMoreSends(s, Main);
    }
    if needs.archive.Some? && InFolder(needs.archive.value) in s.states
       && s.states[InFolder(needs.archive.value)].requestId == 0 {
      RequestMoreSends(s, InFolder(needs.archive.value));
    }
  }

  /**
   * A page of the main list is followed by the request for the page behind it, exactly if its date is not up to the
   * limit; otherwise it blocks. While exceptions are loaded it sends nothing.
   */
  lemma NextPageIsAskedFor(s: Loads, id: RequestId, next: Offset, needs: Needs)
    requires Inv(s) && id in s.flights && s.flights[id].List? && s.flights[id].folder == Main && next.date != 0
    ensures var t := ListDone(s, id, Slice(next), needs);
            && (needs.exceptions ==> t.flights == s.flights - {id} && t.lastId == s.lastId)
            && (!needs.exceptions ==>
                  && (!(0 < next.date <= s.till) <==> AskedForPage(t, s.lastId + 1, Main, next))
                  && t.blocked == (0 < next.date <= s.till))
            && Main in t.states && t.states[Main].offset == next && !t.states[Main].listReceived
  {
    hide Inv, RequestMore;
    assert FlightOk(s, id) by { ItsFlightOk(s, id); }
    NewIdIsFree(s);
    var landed := ListLanded(s, id, Slice(next));
    var refreshed := Refreshed(landed);
    RequestMoreOfMain(refreshed);
    if !(0 < next.date <= s.till) {
      RequestMoreSends(refreshed, Main);
    }
  }

  lemma RequestMoreOfMain(s: Loads)
    requires Main in s.states && s.states[Main].requestId == 0
    ensures s.blocked ==> RequestMore(s, Main) == s
    ensures !s.blocked ==>
              && !RequestMore(s, Main).blocked && Main in RequestMore(s, Main).states
              && RequestMore(s, Main).states[Main].offset == s.states[Main].offset
              && RequestMore(s, Main).states[Main].listReceived == s.states[Main].listReceived
  {}

  /**
   * The last page of the main list, and a page of the needed archive behind it, are followed by the request for the
   * next page of the archive.
   */
  lemma ArchiveFollowsTheMainList(s: Loads, id: RequestId, answer: Answer, archive: nat)
    requires Inv(s) && BlockedOk(s) && id in s.flights && s.flights[id].List?
    requires var t := ListLanded(s, id, answer);
             && (Main !in t.states || t.states[Main].listReceived)
             && InFolder(archive) in t.states && t.states[InFolder(archive)].requestId == 0
    ensures AskedForPage(ListDone(s, id, answer, Needs(false, Some(archive))), s.lastId + 1, InFolder(archive),
                         ListLanded(s, id, answer).states[InFolder(archive)].offset)
  {
    hide Inv, BlockedOk, MoreIfNeeded, ListLanded;
    ListLandedKeepsBlocked(s, id, answer);
    LandedKeepsLastId(s, id, answer);
    var landed := ListLanded(s, id, answer);
    UnblockedWithoutMain(landed);
    MoreIsAskedFor(landed, Needs(false, Some(archive)));
    MoreIsAskedFor(Refreshed(landed), Needs(false, Some(archive)));
  }

  lemma LandedKeepsLastId(s: Loads, id: RequestId, answer: Answer)
    requires id in s.flights
    ensures ListLanded(s, id, answer).lastId == s.lastId
  {}

  lemma UnblockedWithoutMain(s: Loads)
    requires BlockedOk(s) && (Main !in s.states || s.states[Main].listReceived)
    ensures !s.blocked && !Refreshed(s).blocked
  {}

  /** A page of the main list that came, and the next one that is asked for at once. */
  lemma SecondPageIsAskedFor()
    ensures var answer := ListAnswer(1, Slice(Offset(5, 1, 1)), Needs(false, None));
            && Enabled(FIRST, answer)
            && AskedForPage(Step(FIRST, answer), 3, Main, Offset(5, 1, 1))
  {
    FirstIsReached();
    NextPageIsAskedFor(FIRST, 1, Offset(5, 1, 1), Needs(false, None));
  }

  lemma FirstIsReached()
    ensures Inv(FIRST)
  {
    assert forall id :: FlightOk(START, id);
    assert forall f :: StateOk(START, f);
    FirstRequests();
    StepKeepsInv(START, RequestDialogs(Main));
  }

  /** The load is over and reported, or still waits for the part that is missing. */
  predicate Ended(s: Loads, t: Loads, folder: Folder, over: bool) {
    if over then folder !in t.states && t.posted == s.posted + multiset{folder}
    else folder in t.states && t.posted == s.posted
  }

  /** The last page ends the load of a folder whose pinned dialogs are there, and any other one waits for those. */
  lemma LastPageIs(s: Loads, id: RequestId, answer: Answer)
    requires Inv(s) && id in s.flights && s.flights[id].List?
    requires answer.Whole? || (answer.Slice? && answer.next.date == 0)
    ensures var folder, t := s.flights[id].folder, ListLanded(s, id, answer);
            && folder in s.states && t.flights == s.flights - {id}
            && Ended(s, t, folder, s.states[folder].pinnedReceived)
            && (folder in t.states ==> t.states[folder] == s.states[folder].(listReceived := true))
            && (forall other | other != folder && other in s.states ::
                  other in t.states && t.states[other] == s.states[other])
  {
    assert FlightOk(s, id);
  }

  /** The pinned dialogs end the load of a folder whose list was received. */
  lemma PinnedDoneIs(s: Loads, id: RequestId)
    requires Inv(s) && id in s.flights && s.flights[id].Pinned?
    ensures var folder, t := s.flights[id].folder, PinnedDone(s, id);
            && folder in s.states && t.flights == s.flights - {id}
            && Ended(s, t, folder, s.states[folder].listReceived)
            && (folder in t.states ==>
                  t.states[folder] == s.states[folder].(pinnedRequestId := 0, pinnedReceived := true))
            && (forall other | other != folder && other in s.states ::
                  other in t.states && t.states[other] == s.states[other])
  {
    assert FlightOk(s, id);
  }

  /** A failed list request can be sent again, for the same page. */
  lemma ListFailedIs(s: Loads, id: RequestId)
    requires Inv(s) && id in s.flights && s.flights[id].List?
    ensures var folder, t := s.flights[id].folder, ListFailed(s, id);
            && folder in s.states && t.flights == s.flights - {id}
            && t.states == s.states[folder := s.states[folder].(requestId := 0)]
  {
    assert FlightOk(s, id);
  }

  // ----- The limit by date -----

  /** The list is blocked only while the main list waits, at a date up to the limit. */
  predicate BlockedOk(s: Loads) {
    s.blocked ==>
      && Main in s.states && !s.states[Main].listReceived && s.states[Main].requestId == 0
      && 0 < s.states[Main].offset.date <= s.till
  }

  lemma RequestMoreKeepsBlocked(s: Loads, folder: Folder)
    requires BlockedOk(s)
    ensures BlockedOk(RequestMore(s, folder)) && (s.blocked ==> RequestMore(s, folder) == s)
  {}

  lemma RequestKeepsBlocked(s: Loads, folder: Folder)
    requires BlockedOk(s)
    ensures BlockedOk(Request(s, folder))
    ensures s.blocked ==> Request(s, folder).blocked && SameLists(s, Request(s, folder))
  {
    hide RequestMore;
    if folder == Main || folder in s.states {
      RequestMoreKeepsBlocked(s, folder);
    } else {
      RequestMoreKeepsBlocked(s.(states := s.states[folder := FRESH], started := s.started + multiset{folder}), folder);
    }
  }

  lemma MoreIfNeededKeepsBlocked(s: Loads, needs: Needs)
    requires BlockedOk(s)
    ensures BlockedOk(MoreIfNeeded(s, needs))
    ensures s.blocked ==> MoreIfNeeded(s, needs).blocked && SameLists(s, MoreIfNeeded(s, needs))
  {
    hide Request, RequestMore;
    RequestKeepsBlocked(s, Main);
    if needs.archive.Some? {
      RequestMoreKeepsBlocked(s, InFolder(needs.archive.value));
    }
  }

  /** No list request was sent: what is in flight was in flight before. */
  ghost predicate SameLists(s: Loads, t: Loads) {
    forall id | id in t.flights && t.flights[id].List? :: id in s.flights && s.flights[id] == t.flights[id]
  }

  /** The two limits, as they are computed from the main list */
  lemma RefreshedIs(s: Loads)
    ensures var t := Refreshed(s);
            && t == s.(mayBlock := t.mayBlock, blocked := t.blocked)
            && (t.mayBlock <==> Main in s.states && !s.states[Main].listReceived && s.till > 0)
            && (t.blocked <==> && Main in s.states && !s.states[Main].listReceived && s.states[Main].requestId == 0
                               && s.till > 0 && 0 < s.states[Main].offset.date <= s.till)
  {}

  /** A request of the main list computes the limits anew, and that of a folder leaves them alone. */
  lemma RequestMoreLimits(s: Loads, folder: Folder)
    requires Inv(s) && folder in s.states && s.states[folder].requestId == 0 && !s.blocked
    ensures var t := RequestMore(s, folder);
            && !t.blocked && t.till == s.till
            && (folder == Main ==> t.mayBlock == (s.till > 0))
            && (folder != Main ==> t.mayBlock == s.mayBlock)
  {
    hide Inv;
    assert StateOk(s, folder) by { ItsStateOk(s, folder); }
  }

  /** Of an answer the limits are computed anew, if it is one of the main list and that goes on or is done. */
  lemma ListDoneLimits(s: Loads, id: RequestId, answer: Answer)
    requires Inv(s) && id in s.flights && s.flights[id].List?
    ensures var landed, t := ListLanded(s, id, answer), ListDone(s, id, answer, Needs(true, None));
            if s.flights[id].folder == Main && (Main in landed.states ==> !landed.states[Main].listReceived)
            then t == Refreshed(landed) else t == landed
  {}

  lemma RefreshedIsBlockedOk(s: Loads)
    ensures BlockedOk(Refreshed(s)) && Refreshed(s).flights == s.flights
  {}

  lemma ListLandedKeepsBlocked(s: Loads, id: RequestId, answer: Answer)
    requires Inv(s) && BlockedOk(s) && id in s.flights && s.flights[id].List?
    ensures BlockedOk(ListLanded(s, id, answer)) && ListLanded(s, id, answer).blocked == s.blocked
    ensures SameLists(s, ListLanded(s, id, answer)) && (s.blocked ==> s.flights[id].folder != Main)
  {
    assert FlightOk(s, id);
  }

  lemma ListDoneKeepsBlocked(s: Loads, id: RequestId, answer: Answer, needs: Needs)
    requires Inv(s) && BlockedOk(s) && id in s.flights && s.flights[id].List?
    ensures BlockedOk(ListDone(s, id, answer, needs))
    ensures s.blocked ==> ListDone(s, id, answer, needs).blocked && SameLists(s, ListDone(s, id, answer, needs))
  {
    hide Inv, BlockedOk, ListLanded, MoreIfNeeded, Refreshed;
    ListLandedKeepsBlocked(s, id, answer);
    var landed := ListLanded(s, id, answer);
    RefreshedIsBlockedOk(landed);
    MoreIfNeededKeepsBlocked(landed, needs);
    MoreIfNeededKeepsBlocked(Refreshed(landed), needs);
  }

  lemma ListFailedKeepsBlocked(s: Loads, id: RequestId)
    requires Inv(s) && BlockedOk(s) && id in s.flights && s.flights[id].List?
    ensures BlockedOk(ListFailed(s, id)) && ListFailed(s, id).blocked == s.blocked && SameLists(s, ListFailed(s, id))
  {
    assert FlightOk(s, id);
  }

  lemma PinnedDoneKeepsBlocked(s: Loads, id: RequestId)
    requires BlockedOk(s) && id in s.flights && s.flights[id].Pinned?
    ensures BlockedOk(PinnedDone(s, id)) && PinnedDone(s, id).blocked == s.blocked && SameLists(s, PinnedDone(s, id))
  {}

  /** In either of the two ways */
  predicate SetsLimit(e: Event) { e.MoreByDate? || e.LimitSet? }

  /** While the list is blocked, only a new limit can unblock it or send a list request, of any folder. */
  lemma BlockedStays(s: Loads, e: Event)
    requires Inv(s) && BlockedOk(s) && Enabled(s, e)
    ensures BlockedOk(Step(s, e))
    ensures s.blocked && !SetsLimit(e) ==> Step(s, e).blocked && SameLists(s, Step(s, e))
  {
    hide Inv, BlockedOk, Request, RequestPinned, MoreIfNeeded, Refreshed, ListDone, ListFailed, PinnedDone, SameLists;
    match e
    case RequestDialogs(folder) => RequestKeepsBlocked(s, folder);
    case RequestPinnedDialogs(folder) => RequestPinnedKeepsBlocked(s, folder);
    case RequestIfNeeded(needs) => MoreIfNeededKeepsBlocked(s, needs);
    case MoreByDate(till) =>
      RefreshedIsBlockedOk(s.(till := till));
      RequestKeepsBlocked(Refreshed(s.(till := till)), Main);
    case LimitSet(till) => RefreshedIsBlockedOk(s.(till := till));
    case ListAnswer(id, answer, needs) => ListDoneKeepsBlocked(s, id, answer, needs);
    case ListFailure(id) => ListFailedKeepsBlocked(s, id);
    case PinnedAnswer(id) => PinnedDoneKeepsBlocked(s, id);
  }

  lemma RequestPinnedKeepsBlocked(s: Loads, folder: Folder)
    requires BlockedOk(s)
    ensures var t := RequestPinned(s, folder); BlockedOk(t) && t.blocked == s.blocked && SameLists(s, t)
  {}

  lemma {:induction false} RunKeepsBlocked(s: Loads, run: seq<Event>)
    requires Inv(s) && BlockedOk(s) && AllEnabled(s, run)
    ensures Inv(Run(s, run)) && BlockedOk(Run(s, run))
    ensures s.blocked && (forall e | e in run :: !SetsLimit(e)) ==> Run(s, run).blocked && SameLists(s, Run(s, run))
    decreases |run|
  {
    hide Inv, BlockedOk, Step, Enabled;
    if run != [] {
      StepKeepsInv(s, run[0]);
      BlockedStays(s, run[0]);
      RunKeepsBlocked(Step(s, run[0]), run[1..]);
    }
  }

  /**
   * From the start: when the list is blocked, the main list waits at a date up to the limit, and until a new limit is
   * set nothing unblocks it, and no list request of any folder is sent.
   */
  lemma BlockedUntilNewLimit(run: seq<Event>, more: seq<Event>)
    requires AllEnabled(START, run) && AllEnabled(Run(START, run), more)
    requires Run(START, run).blocked && forall e | e in more :: !SetsLimit(e)
    ensures var s := Run(START, run);
            && Main in s.states && s.states[Main].requestId == 0 && 0 < s.states[Main].offset.date <= s.till
            && Run(s, more).blocked && SameLists(s, Run(s, more))
  {
    hide Run, AllEnabled, SameLists;
    assert forall id :: FlightOk(START, id);
    assert forall f :: StateOk(START, f);
    RunKeepsBlocked(START, run);
    RunKeepsBlocked(Run(START, run), more);
  }

  /**
   * Moving the limit back asks for the next page of the main list exactly if none is asked for and the limit leaves its
   * date free.
   */
  lemma NewLimitSendsIff(s: Loads, till: int)
    requires Inv(s) && Main in s.states
    ensures var state, t := s.states[Main], TillSet(s, till);
            && (state.requestId == 0 && !(0 < state.offset.date <= till)
                <==> s.lastId + 1 in t.flights && t.flights[s.lastId + 1] == List(Main, state.offset))
            && (t.blocked <==> state.requestId == 0 && 0 < state.offset.date <= till)
  {
    hide Inv, RequestPinned;
    assert StateOk(s, Main) by { ItsStateOk(s, Main); }
    NewIdIsFree(s);
    var there := Refreshed(s.(till := till));
    if !there.blocked && s.states[Main].requestId == 0 {
      PinnedBeside(SendList(there, Main), Main);
    }
  }

  /** When the main list is done, moving the limit back does nothing. */
  lemma NoLimitWithoutMain(s: Loads, till: int)
    requires Main !in s.states
    ensures TillSet(s, till) == s
  {}

  /** The limit of the support mode unblocks or blocks the lists in the same way, and sends nothing in either case. */
  lemma ChangedLimitSendsNothing(s: Loads, till: int)
    requires Inv(s) && Main in s.states
    ensures var state, t := s.states[Main], LimitChanged(s, till);
            && t.flights == s.flights && t.states == s.states
            && (t.blocked <==> state.requestId == 0 && 0 < state.offset.date <= till)
            && (!t.blocked && state.requestId == 0
                ==> var u := Request(t, Main);
                    t.lastId + 1 in u.flights && u.flights[t.lastId + 1] == List(Main, state.offset))
  {
    hide Inv, RequestPinned;
    assert StateOk(s, Main) by { ItsStateOk(s, Main); }
    var t := LimitChanged(s, till);
    if !t.blocked && s.states[Main].requestId == 0 {
      PinnedBeside(SendList(t, Main), Main);
    }
  }

  /**
   * The failure of a list request does not compute the block anew: the flag is stale exactly if the date of the main
   * list is up to the limit, and the next call asks for the page all the same.
   */
  lemma FailureIgnoresLimit(s: Loads, id: RequestId)
    requires Inv(s) && BlockedOk(s) && id in s.flights && s.flights[id].List? && s.flights[id].folder == Main
    ensures Main in s.states
    ensures var state, t := s.states[Main], ListFailed(s, id);
            && !t.blocked
            && (Refreshed(t).blocked != t.blocked <==> 0 < state.offset.date <= s.till)
            && var u := Request(t, Main);
               t.lastId + 1 in u.flights && u.flights[t.lastId + 1] == List(Main, state.offset)
  {
    hide Inv, RequestPinned;
    assert FlightOk(s, id) by { ItsFlightOk(s, id); }
    PinnedBeside(SendList(ListFailed(s, id), Main), Main);
  }

  lemma ItsFlightOk(s: Loads, id: RequestId)
    requires Inv(s)
    ensures FlightOk(s, id)
  {}

  lemma ItsStateOk(s: Loads, folder: Folder)
    requires Inv(s)
    ensures StateOk(s, folder)
  {}

  lemma PinnedBeside(s: Loads, folder: Folder)
    ensures var t := RequestPinned(s, folder);
            && (forall id | id in s.flights && id <= s.lastId :: id in t.flights && t.flights[id] == s.flights[id])
            && t.states.Keys == s.states.Keys && t.till == s.till && t.blocked == s.blocked
            && (folder in s.states ==> t.states[folder].requestId == s.states[folder].requestId
                                       && t.states[folder].offset == s.states[folder].offset
                                       && t.states[folder].listReceived == s.states[folder].listReceived)
  {}

  // ----- The pinned dialogs beside the list -----

  /** Wherever a page was asked for or came, the pinned dialogs were asked for too. */
  predicate Beside(s: Loads, folder: Folder) {
    folder in s.states ==>
      var state := s.states[folder];
      state.requestId != 0 || state.offset.date != 0 ==> state.pinnedReceived || state.pinnedRequestId != 0
  }

  lemma RequestMoreKeepsBeside(s: Loads, other: Folder, folder: Folder)
    requires Beside(s, folder)
    ensures Beside(RequestMore(s, other), folder)
  {}

  lemma RequestKeepsBeside(s: Loads, other: Folder, folder: Folder)
    requires Beside(s, folder)
    ensures Beside(Request(s, other), folder)
  {
    hide RequestMore;
    if other == Main || other in s.states {
      RequestMoreKeepsBeside(s, other, folder);
    } else {
      RequestMoreKeepsBeside(s.(states := s.states[other := FRESH], started := s.started + multiset{other}),
                             other, folder);
    }
  }

  lemma MoreIfNeededKeepsBeside(s: Loads, needs: Needs, folder: Folder)
    requires Beside(s, folder)
    ensures Beside(MoreIfNeeded(s, needs), folder)
  {
    hide Beside, Request, RequestMore;
    RequestKeepsBeside(s, Main, folder);
    if needs.archive.Some? {
      RequestMoreKeepsBeside(s, InFolder(needs.archive.value), folder);
    }
  }

  lemma ListLandedKeepsBeside(s: Loads, id: RequestId, answer: Answer, folder: Folder)
    requires Inv(s) && id in s.flights && s.flights[id].List? && Beside(s, folder)
    ensures Beside(ListLanded(s, id, answer), folder)
  {
    assert FlightOk(s, id);
    hide Inv;
  }

  lemma StepKeepsBeside(s: Loads, e: Event, folder: Folder)
    requires Inv(s) && Enabled(s, e) && Beside(s, folder)
    ensures Beside(Step(s, e), folder)
  {
    hide Inv, Request, RequestMore, MoreIfNeeded, ListLanded;
    match e
    case RequestDialogs(other) => RequestKeepsBeside(s, other, folder);
    case RequestPinnedDialogs(other) =>
    case RequestIfNeeded(needs) => MoreIfNeededKeepsBeside(s, needs, folder);
    case MoreByDate(till) => RequestKeepsBeside(Refreshed(s.(till := till)), Main, folder);
    case LimitSet(_) =>
    case ListAnswer(id, answer, needs) =>
      var landed := ListLanded(s, id, answer);
      ListLandedKeepsBeside(s, id, answer, folder);
      MoreIfNeededKeepsBeside(landed, needs, folder);
      MoreIfNeededKeepsBeside(Refreshed(landed), needs, folder);
    case ListFailure(id) =>
    case PinnedAnswer(id) =>
  }

  lemma {:induction false} RunKeepsBeside(s: Loads, run: seq<Event>, folder: Folder)
    requires Inv(s) && AllEnabled(s, run) && Beside(s, folder)
    ensures Beside(Run(s, run), folder)
    decreases |run|
  {
    hide Inv, Step, Beside;
    if run != [] {
      StepKeepsInv(s, run[0]);
      StepKeepsBeside(s, run[0], folder);
      RunKeepsBeside(Step(s, run[0]), run[1..], folder);
    }
  }

  /** When nothing is in flight, a load that is not stuck only waits to be asked again: its pinned dialogs are there. */
  lemma QuietLoadsAreIdle(run: seq<Event>, folder: Folder)
    requires AllEnabled(START, run)
    requires var s := Run(START, run); s.flights == map[] && folder in s.states && folder !in s.stuck
    ensures var state := Run(START, run).states[folder];
            && state.requestId == 0 && !state.listReceived && state.pinnedRequestId == 0
            && (state.offset.date != 0 ==> state.pinnedReceived)
  {
    assert forall id :: FlightOk(START, id);
    assert forall f :: StateOk(START, f);
    RunKeepsInv(START, run);
    RunKeepsBeside(START, run, folder);
    assert StateOk(Run(START, run), folder);
  }
}
