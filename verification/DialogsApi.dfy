/** The dialog loading of `ApiWrap` as it changes its fields, against the transitions of `Dialogs`. */
module DialogsApi {
  import opened Dialogs
  import opened Options

  // ----- The offset of the next page -----

  datatype Dialog = Dialog(peer: int, topMessage: int)

  datatype Message = Message(id: int, peer: int, date: int)

  predicate Counts(d: Dialog) { d.peer != 0 && d.topMessage != 0 }

  /** The date of the last message that is the top message of the dialog, zero if there is none */
  function DateOf(d: Dialog, messages: seq<Message>): int
    decreases |messages|
  {
    if messages == [] then 0
    else
      var last := messages[|messages| - 1];
      if last.id == d.topMessage && last.peer == d.peer then last.date else DateOf(d, messages[..|messages| - 1])
  }

  /** The last dialog of a page that has a peer and a message */
  function LastCounting(dialogs: seq<Dialog>): Option<Dialog>
    decreases |dialogs|
  {
    if dialogs == [] then None
    else if Counts(dialogs[|dialogs| - 1]) then Some(dialogs[|dialogs| - 1])
    else LastCounting(dialogs[..|dialogs| - 1])
  }

  function LastDate(dialogs: seq<Dialog>, messages: seq<Message>): int
    decreases |dialogs|
  {
    if dialogs == [] then 0
    else
      var last := dialogs[|dialogs| - 1];
      if Counts(last) && DateOf(last, messages) != 0 then DateOf(last, messages)
      else LastDate(dialogs[..|dialogs| - 1], messages)
  }

  /** The date and the place may come from two different dialogs (`OffsetIsOneDialogsIff`). */
  function NextOffset(dialogs: seq<Dialog>, messages: seq<Message>): Offset {
    match LastCounting(dialogs)
    case None => NO_OFFSET
    case Some(d) => Offset(LastDate(dialogs, messages), d.topMessage, d.peer)
  }

  /** A page goes on exactly when one of its dialogs has its top message with a date. */
  lemma {:induction false} GoesOnIff(dialogs: seq<Dialog>, messages: seq<Message>)
    ensures NextOffset(dialogs, messages).date != 0
       <==> exists d :: d in dialogs && Counts(d) && DateOf(d, messages) != 0
    decreases |dialogs|
  {
    if dialogs != [] {
      var front, last := dialogs[..|dialogs| - 1], dialogs[|dialogs| - 1];
      assert dialogs == front + [last];
      GoesOnIff(front, messages);
      NoneCounting(front, messages);
    }
  }

  /** The dialog has a peer and a top message. */
  predicate IsPlace(d: Dialog) { d.peer != 0 && d.topMessage != 0 }

  /** The date of a dialog is that of the last of the messages with its id and its peer. */
  lemma {:induction false} DateOfIs(d: Dialog, front: seq<Message>, m: Message, back: seq<Message>)
    requires m.id == d.topMessage && m.peer == d.peer
    requires forall n | n in back :: n.id != d.topMessage || n.peer != d.peer
    ensures DateOf(d, front + [m] + back) == m.date
    decreases |back|
  {
    var all := front + [m] + back;
    if back != [] {
      var fewer := back[..|back| - 1];
      assert all[..|all| - 1] == front + [m] + fewer;
      assert all[|all| - 1] == back[|back| - 1] && back[|back| - 1] in back;
      DateOfIs(d, front, m, fewer);
    }
  }

  lemma {:induction false} DateOfNone(d: Dialog, messages: seq<Message>)
    requires forall n | n in messages :: n.id != d.topMessage || n.peer != d.peer
    ensures DateOf(d, messages) == 0
    decreases |messages|
  {
    if messages != [] {
      assert messages[|messages| - 1] in messages;
      DateOfNone(d, messages[..|messages| - 1]);
    }
  }

  /** The place of the offset is the last dialog that has a peer and a message, whatever its date. */
  lemma {:induction false} PlaceIs(front: seq<Dialog>, d: Dialog, back: seq<Dialog>, messages: seq<Message>)
    requires IsPlace(d) && forall e | e in back :: !IsPlace(e)
    ensures NextOffset(front + [d] + back, messages).id == d.topMessage
    ensures NextOffset(front + [d] + back, messages).peer == d.peer
    decreases |back|
  {
    LastPlaceIs(front, d, back);
  }

  lemma {:induction false} LastPlaceIs(front: seq<Dialog>, d: Dialog, back: seq<Dialog>)
    requires IsPlace(d) && forall e | e in back :: !IsPlace(e)
    ensures LastCounting(front + [d] + back) == Some(d)
    decreases |back|
  {
    var all := front + [d] + back;
    if back != [] {
      var fewer := back[..|back| - 1];
      assert all[..|all| - 1] == front + [d] + fewer;
      assert all[|all| - 1] == back[|back| - 1] && back[|back| - 1] in back;
      LastPlaceIs(front, d, fewer);
    }
  }

  /** The date of the offset is that of the last dialog that has a place and a date. */
  lemma {:induction false} DateIs(front: seq<Dialog>, d: Dialog, back: seq<Dialog>, messages: seq<Message>)
    requires IsPlace(d) && DateOf(d, messages) != 0
    requires forall e | e in back :: !IsPlace(e) || DateOf(e, messages) == 0
    ensures LastDate(front + [d] + back, messages) == DateOf(d, messages)
    decreases |back|
  {
    var all := front + [d] + back;
    if back != [] {
      var fewer := back[..|back| - 1];
      assert all[..|all| - 1] == front + [d] + fewer;
      assert all[|all| - 1] == back[|back| - 1] && back[|back| - 1] in back;
      DateIs(front, d, fewer, messages);
    }
  }

  lemma {:induction false} NoPlace(dialogs: seq<Dialog>, messages: seq<Message>)
    requires forall d | d in dialogs :: !IsPlace(d)
    ensures NextOffset(dialogs, messages) == NO_OFFSET
    decreases |dialogs|
  {
    NoPlaceCounts(dialogs);
  }

  lemma {:induction false} NoPlaceCounts(dialogs: seq<Dialog>)
    requires forall d | d in dialogs :: !IsPlace(d)
    ensures LastCounting(dialogs) == None
    decreases |dialogs|
  {
    if dialogs != [] {
      assert dialogs[|dialogs| - 1] in dialogs;
      NoPlaceCounts(dialogs[..|dialogs| - 1]);
    }
  }

  lemma {:induction false} NoneCounting(dialogs: seq<Dialog>, messages: seq<Message>)
    ensures LastCounting(dialogs).None? ==> LastDate(dialogs, messages) == 0
    decreases |dialogs|
  {
    if dialogs != [] {
      NoneCounting(dialogs[..|dialogs| - 1], messages);
    }
  }

  /** The offset behind one dialog of the page */
  function OffsetOf(d: Dialog, messages: seq<Message>): Offset { Offset(DateOf(d, messages), d.topMessage, d.peer) }

  ghost predicate OneDialogsOffset(dialogs: seq<Dialog>, messages: seq<Message>) {
    exists d :: d in dialogs && Counts(d) && NextOffset(dialogs, messages) == OffsetOf(d, messages)
  }

  lemma {:induction false} LastCountingIs(dialogs: seq<Dialog>)
    ensures LastCounting(dialogs).Some? ==> LastCounting(dialogs).value in dialogs && Counts(LastCounting(dialogs).value)
    decreases |dialogs|
  {
    if dialogs != [] {
      LastCountingIs(dialogs[..|dialogs| - 1]);
    }
  }

  /** The last dated date is that of the last counting dialog, if that is dated, and of an earlier one otherwise. */
  lemma {:induction false} LastDateOfLast(dialogs: seq<Dialog>, messages: seq<Message>)
    requires LastCounting(dialogs).Some? && DateOf(LastCounting(dialogs).value, messages) != 0
    ensures LastDate(dialogs, messages) == DateOf(LastCounting(dialogs).value, messages)
    decreases |dialogs|
  {
    if !Counts(dialogs[|dialogs| - 1]) {
      LastDateOfLast(dialogs[..|dialogs| - 1], messages);
    }
  }

  /**
   * The next offset of a page with a dialog that counts is the offset of one of its dialogs exactly if the last one
   * that counts has its top message with a date, or no dialog has.
   */
  lemma OffsetIsOneDialogsIff(dialogs: seq<Dialog>, messages: seq<Message>)
    requires LastCounting(dialogs).Some?
    ensures OneDialogsOffset(dialogs, messages)
       <==> DateOf(LastCounting(dialogs).value, messages) != 0 || LastDate(dialogs, messages) == 0
  {
    hide LastCounting, LastDate, DateOf;
    var last := LastCounting(dialogs).value;
    LastCountingIs(dialogs);
    if DateOf(last, messages) != 0 {
      LastDateOfLast(dialogs, messages);
    }
    if DateOf(last, messages) != 0 || LastDate(dialogs, messages) == 0 {
      assert NextOffset(dialogs, messages) == OffsetOf(last, messages);
    }
  }

  /** Two dialogs of which only the first has a dated message: the offset takes the date of it and the place of the other. */
  lemma OffsetOfTwoDialogs()
    ensures var dialogs, messages := [Dialog(7, 70), Dialog(8, 80)], [Message(70, 7, 1000)];
            NextOffset(dialogs, messages) == Offset(1000, 80, 8) && !OneDialogsOffset(dialogs, messages)
  {
    var first, second := Dialog(7, 70), Dialog(8, 80);
    var dialogs, messages := [first, second], [Message(70, 7, 1000)];
    assert dialogs[..1] == [first] && messages[..0] == [];
    assert DateOf(second, messages) == 0 && DateOf(first, messages) == 1000;
    assert LastDate([first], messages) == 1000;
    assert LastCounting(dialogs) == Some(second);
    OffsetIsOneDialogsIff(dialogs, messages);
  }

  class DialogsApi {
    var states: map<Folder, LoadState>
    var dialogsLoadTill: int
    var mayBlockByDate: bool
    var blockedByDate: bool
    var lastId: RequestId
    ghost var flights: map<RequestId, Flight>
    ghost var started: multiset<Folder>
    ghost var posted: multiset<Folder>
    ghost var stuck: set<Folder>

    constructor ()
      ensures Loading() == START
    {
      states, dialogsLoadTill, mayBlockByDate, blockedByDate := map[Main := FRESH], 0, false, false;
      lastId, flights, started, posted, stuck := 0, map[], multiset{Main}, multiset{}, {};
    }

    ghost function Loading(): Loads
      reads this
    {
      Loads(states, dialogsLoadTill, mayBlockByDate, blockedByDate, flights, lastId, started, posted, stuck, false)
    }

    method RefreshDialogsLoadBlocked()
      modifies this`mayBlockByDate, this`blockedByDate
      ensures Loading() == Refreshed(old(Loading()))
    {
      mayBlockByDate := Main in states && !states[Main].listReceived && dialogsLoadTill > 0;
      blockedByDate := Main in states && !states[Main].listReceived && states[Main].requestId == 0
        && dialogsLoadTill > 0 && states[Main].offset.date > 0 && states[Main].offset.date <= dialogsLoadTill;
    }

    method RequestPinnedDialogs(folder: Folder)
      modifies this`states, this`lastId, this`flights
      ensures Loading() == RequestPinned(old(Loading()), folder)
    {
      if folder !in states || states[folder].pinnedReceived || states[folder].pinnedRequestId != 0 {
        return;
      }
      lastId := lastId + 1;
      flights := flights[lastId := Pinned(folder)];
      states := states[folder := states[folder].(pinnedRequestId := lastId)];
    }

    method RequestMoreDialogs(folder: Folder)
      modifies this`states, this`lastId, this`flights, this`mayBlockByDate, this`blockedByDate
      ensures Loading() == RequestMore(old(Loading()), folder)
    {
      hide RequestPinned, Refreshed;
      if folder !in states || states[folder].requestId != 0 || blockedByDate {
        return;
      }
      lastId := lastId + 1;
      flights := flights[lastId := List(folder, states[folder].offset)];
      states := states[folder := states[folder].(requestId := lastId)];
      PinnedReceivedIsIdle(Loading(), folder);
      if !states[folder].pinnedReceived {
        RequestPinnedDialogs(folder);
      }
      if folder == Main {
        RefreshDialogsLoadBlocked();
      }
    }

    method RequestDialogs(folder: Folder)
      modifies this`states, this`lastId, this`flights, this`mayBlockByDate, this`blockedByDate, this`started
      ensures Loading() == Request(old(Loading()), folder)
    {
      if folder != Main && folder !in states {
        states := states[folder := FRESH];
        started := started + multiset{folder};
      }
      RequestMoreDialogs(folder);
    }

    method RequestMoreDialogsIfNeeded(needs: Needs)
      modifies this`states, this`lastId, this`flights, this`mayBlockByDate, this`blockedByDate, this`started
      ensures Loading() == MoreIfNeeded(old(Loading()), needs)
    {
      if needs.exceptions {
        return;
      } else if Main in states && !states[Main].listReceived {
        if states[Main].requestId != 0 {
          return;
        }
        RequestDialogs(Main);
      } else if needs.archive.Some? {
        RequestMoreDialogs(InFolder(needs.archive.value));
      }
    }

    /** The handler of `setupSupportMode` for a new time slice */
    method SupportChatsTimeSliceChanged(seconds: int, now: int)
      modifies this`dialogsLoadTill, this`mayBlockByDate, this`blockedByDate
      ensures Loading() == LimitChanged(old(Loading()),
                if seconds == 0 || now < seconds then 0 else now - seconds)
    {
      dialogsLoadTill := if seconds != 0 then (if now - seconds > 0 then now - seconds else 0) else 0;
      RefreshDialogsLoadBlocked();
    }

    method RequestMoreBlockedByDateDialogs(timeSlice: int, now: int)
      modifies this
      ensures Loading() == TillSet(old(Loading()),
                if Main in old(states) && old(states)[Main].offset.date != 0
                then old(states)[Main].offset.date - timeSlice else now - timeSlice)
    {
      if Main !in states {
        return;
      }
      dialogsLoadTill := if states[Main].offset.date != 0 then states[Main].offset.date - timeSlice else now - timeSlice;
      RefreshDialogsLoadBlocked();
      RequestDialogs(Main);
    }

    method DialogsLoadFinish(folder: Folder)
      modifies this`states, this`posted
      ensures Loading() == Finish(old(Loading()), folder)
    {
      if folder !in states || !states[folder].listReceived || !states[folder].pinnedReceived {
        return;
      }
      states := states - {folder};
      posted := posted + multiset{folder};
    }

    /** The walk back over a page for the offset of the next one */
    method LastOfPage(dialogs: seq<Dialog>, messages: seq<Message>) returns (next: Offset)
      ensures next == NextOffset(dialogs, messages)
    {
      hide DateOf;
      var lastDate, lastPeer, lastMsgId := 0, 0, 0;
      var i := |dialogs|;
      assert dialogs[..i] == dialogs;
      while i > 0 && lastDate == 0
        invariant 0 <= i <= |dialogs|
        invariant lastDate == 0 ==> LastDate(dialogs, messages) == LastDate(dialogs[..i], messages)
        invariant lastDate != 0 ==> LastDate(dialogs, messages) == lastDate && lastPeer != 0
        invariant lastPeer == 0 <==> lastMsgId == 0
        invariant lastPeer == 0 ==> LastCounting(dialogs) == LastCounting(dialogs[..i])
        invariant lastPeer != 0 ==> LastCounting(dialogs) == Some(Dialog(lastPeer, lastMsgId))
      {
        i := i - 1;
        var dialog := dialogs[i];
        assert dialogs[..i + 1][..i] == dialogs[..i];
        if dialog.peer != 0 && dialog.topMessage != 0 {
          if lastPeer == 0 {
            lastPeer := dialog.peer;
          }
          if lastMsgId == 0 {
            lastMsgId := dialog.topMessage;
          }
          lastDate := DateOfTop(dialog, messages);
        }
      }
      assert i == 0 ==> dialogs[..i] == [];
      NoneCounting(dialogs, messages);
      next := Offset(lastDate, lastMsgId, lastPeer);
    }

    method DateOfTop(dialog: Dialog, messages: seq<Message>) returns (date: int)
      ensures date == DateOf(dialog, messages)
    {
      var i := |messages|;
      assert messages[..i] == messages;
      while i > 0
        invariant 0 <= i <= |messages|
        invariant DateOf(dialog, messages) == DateOf(dialog, messages[..i])
      {
        i := i - 1;
        assert messages[..i + 1][..i] == messages[..i];
        if messages[i].id == dialog.topMessage && messages[i].peer == dialog.peer {
          return messages[i].date;
        }
      }
      date := 0;
    }

    /** `updateDialogsOffset` */
    method UpdateDialogsOffset(folder: Folder, dialogs: seq<Dialog>, messages: seq<Message>)
      modifies this`states, this`posted
      ensures folder !in old(states) ==> Loading() == old(Loading())
      ensures folder in old(states) ==>
                var next, was := NextOffset(dialogs, messages), old(Loading());
                Loading() == if next.date != 0
                  then was.(states := was.states[folder := was.states[folder].(offset := next, requestId := 0)])
                  else Finish(was.(states := was.states[folder := was.states[folder].(listReceived := true)]), folder)
    {
      var next := LastOfPage(dialogs, messages);
      if folder in states {
        if next.date != 0 {
          states := states[folder := states[folder].(offset := next, requestId := 0)];
        } else {
          states := states[folder := states[folder].(listReceived := true)];
          DialogsLoadFinish(folder);
        }
      }
    }

    /** The done handler of a list request */
    method DialogsDone(id: RequestId, folder: Folder, answer: Answer, dialogs: seq<Dialog>, messages: seq<Message>,
                       needs: Needs)
      requires id in flights && flights[id].List? && flights[id].folder == folder
      requires answer.Slice? ==> answer.next == NextOffset(dialogs, messages)
      requires Inv(Loading())
      modifies this
      ensures Loading() == ListDone(old(Loading()), id, answer, needs)
    {
      hide Inv, Finish, MoreIfNeeded, Refreshed, NextOffset;
      assert folder in states by { InFlightHasState(Loading(), id); }
      flights := flights - {id};
      match answer {
        case NotModified => stuck := stuck + {folder};
        case Whole =>
          if folder in states {
            states := states[folder := states[folder].(listReceived := true)];
            DialogsLoadFinish(folder);
          }
        case Slice(_) => UpdateDialogsOffset(folder, dialogs, messages);
      }
      if folder == Main && (Main !in states || !states[Main].listReceived) {
        RefreshDialogsLoadBlocked();
      }
      RequestMoreDialogsIfNeeded(needs);
    }

    /** The fail handler: the state it dereferences is there. */
    method DialogsFailed(ghost id: RequestId, folder: Folder)
      requires id in flights && flights[id].List? && flights[id].folder == folder
      requires Inv(Loading())
      modifies this`states, this`flights
      ensures Loading() == ListFailed(old(Loading()), id)
    {
      assert folder in states by { InFlightHasState(Loading(), id); }
      flights := flights - {id};
      states := states[folder := states[folder].(requestId := 0)];
    }

    /** `finalize` of a pinned request */
    method PinnedFinalize(ghost id: RequestId, folder: Folder)
      requires id in flights && flights[id] == Pinned(folder)
      modifies this`states, this`flights, this`posted
      ensures Loading() == PinnedDone(old(Loading()), id)
    {
      flights := flights - {id};
      if folder in states {
        states := states[folder := states[folder].(pinnedRequestId := 0, pinnedReceived := true)];
        DialogsLoadFinish(folder);
      }
    }
  }

  lemma PinnedReceivedIsIdle(s: Loads, folder: Folder)
    ensures folder in s.states && s.states[folder].pinnedReceived ==> RequestPinned(s, folder) == s
  {}

  lemma InFlightHasState(s: Loads, id: RequestId)
    requires Inv(s) && id in s.flights
    ensures s.flights[id].folder in s.states
  {
    assert FlightOk(s, id);
  }
}
