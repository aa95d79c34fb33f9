/** The web-app page: events for a frame that is not loaded yet wait in a bounded queue, stamped with its generation. */
module ShellFrames {
  import opened Options

  type Event = string

  const MAX_PENDING: nat := 64

  const RELOAD: Event := "reload_iframe"

  datatype Pending = Pending(generation: nat, event: Event)

  datatype Sent = Sent(generation: nat, event: Event)

  /** What happened to a frame since it was created */
  datatype Mark = Posted(event: Event) | Loaded | WillReload | AskedToReload

  /**
   * The variables of the page. `muted` stands for a frame of the same origin whose origin is not known, and `timer` for
   * the generation that the reload timer was set for; `log` is all that was posted into frames, and `histories` and
   * `mutes` tell of every generation.
   */
  datatype Page = Page(
    generation: nat, loaded: bool, muted: bool, reloadSupported: bool, timer: Option<nat>, pending: seq<Pending>,
    log: seq<Sent>, histories: map<nat, seq<Mark>>, mutes: map<nat, bool>)

  /** There is no frame before the first one is created. */
  const START := Page(0, false, false, false, None, [], [], map[0 := []], map[0 := false])

  predicate HasFrame(p: Page) { p.generation > 0 }

  // ----- The functions of the page -----

  function Marked(p: Page, mark: Mark): Page
    requires p.generation in p.histories
  {
    p.(histories := p.histories[p.generation := p.histories[p.generation] + [mark]])
  }

  /** `sendToFrame` */
  function SendToFrame(p: Page, event: Event, generation: nat): Page {
    if !HasFrame(p) || generation != p.generation || p.muted then p
    else p.(log := p.log + [Sent(generation, event)])
  }

  function Last<T>(queue: seq<T>, n: nat): seq<T> { if |queue| <= n then queue else queue[|queue| - n..] }

  /** `postToFrame` */
  function PostToFrame(p: Page, event: Event): Page
    requires p.generation in p.histories
  {
    var posted := Marked(p, Posted(event));
    if !HasFrame(p) || !p.loaded then
      posted.(pending := Last(p.pending + [Pending(p.generation, event)], MAX_PENDING))
    else SendToFrame(posted, event, p.generation)
  }

  /** The loop of `flushPendingEvents` over the events taken out of the queue */
  function SendAll(p: Page, events: seq<Pending>): Page
    decreases |events|
  {
    if events == [] then p
    else
      var first := events[0];
      SendAll(if first.generation == p.generation then SendToFrame(p, first.event, first.generation) else p, events[1..])
  }

  /** The load handler of the frame of a generation */
  function FrameLoaded(p: Page, generation: nat): Page
    requires p.generation in p.histories
  {
    if !HasFrame(p) || generation != p.generation then p
    else SendAll(Marked(p, Loaded).(loaded := true, pending := []), p.pending)
  }

  /** `createIframe` */
  function CreateFrame(p: Page, muted: bool): Page {
    var generation := p.generation + 1;
    Page(generation, false, muted, false, None, [], p.log,
         p.histories[generation := []], p.mutes[generation := muted])
  }

  /** The frame tells that it is ready, or that it will reload by itself. */
  function FrameReady(p: Page, supported: bool): Page { if HasFrame(p) then p.(reloadSupported := supported) else p }

  function FrameWillReload(p: Page): Page
    requires p.generation in p.histories
  {
    if HasFrame(p) then Marked(p, WillReload).(timer := None, loaded := false) else p
  }

  /** `reloadFrame` */
  function ReloadFrame(p: Page): Page
    requires p.generation in p.histories
  {
    if !HasFrame(p) then p
    else if p.reloadSupported && p.loaded then
      SendToFrame(Marked(p, AskedToReload), RELOAD, p.generation).(timer := Some(p.generation))
    else CreateFrame(p, p.muted)
  }

  /** The timer starts the frame again. */
  function TimerFired(p: Page): Page { CreateFrame(p, p.muted) }

  datatype Input =
    | Bootstrap(muted: bool)
    | Post(event: Event)
    | Load(generation: nat)
    | Ready(supported: bool)
    | Leaving
    | Reload
    | Timer

  predicate Enabled(p: Page, input: Input) { input.Timer? ==> p.timer.Some? }

  function Step(p: Page, input: Input): Page
    requires p.generation in p.histories && Enabled(p, input)
    ensures Step(p, input).generation in Step(p, input).histories
  {
    match input
    case Bootstrap(muted) => CreateFrame(p, muted)
    case Post(event) => PostToFrame(p, event)
    case Load(generation) => SendAllKeeps(p, generation); FrameLoaded(p, generation)
    case Ready(supported) => FrameReady(p, supported)
    case Leaving => FrameWillReload(p)
    case Reload => ReloadFrame(p)
    case Timer => TimerFired(p)
  }

  lemma {:induction false} SendAllFields(p: Page, events: seq<Pending>)
    ensures SendAll(p, events) == p.(log := SendAll(p, events).log)
    decreases |events|
  {
    if events != [] {
      var first := events[0];
      var next := if first.generation == p.generation then SendToFrame(p, first.event, first.generation) else p;
      SendAllFields(next, events[1..]);
    }
  }

  lemma SendAllKeeps(p: Page, generation: nat)
    requires p.generation in p.histories
    ensures FrameLoaded(p, generation).generation in FrameLoaded(p, generation).histories
  {
    SendAllFields(Marked(p, Loaded).(loaded := true, pending := []), p.pending);
  }

  // ----- What a frame gets, told from its history alone -----

  predicate IsLoaded(h: seq<Mark>)
    decreases |h|
  {
    h != [] && match h[|h| - 1]
               case Loaded => true
               case WillReload => false
               case _ => IsLoaded(h[..|h| - 1])
  }

  /** All events posted since the frame was last loading, however many there are */
  function Waiting(h: seq<Mark>): seq<Event>
    decreases |h|
  {
    if h == [] then []
    else
      var before := h[..|h| - 1];
      match h[|h| - 1]
      case Posted(event) => if IsLoaded(before) then Waiting(before) else Waiting(before) + [event]
      case Loaded => []
      case _ => Waiting(before)
  }

  /** The events a frame gets: at once while it is loaded, and the last 64 of those that waited when it has loaded */
  function Delivered(h: seq<Mark>): seq<Event>
    decreases |h|
  {
    if h == [] then []
    else
      var before := h[..|h| - 1];
      Delivered(before) +
      match h[|h| - 1]
      case Posted(event) => if IsLoaded(before) then [event] else []
      case Loaded => Last(Waiting(before), MAX_PENDING)
      case AskedToReload => [RELOAD]
      case WillReload => []
  }

  /** A frame is only asked to reload while it is loaded. */
  predicate AskedWhileLoaded(h: seq<Mark>)
    decreases |h|
  {
    h == [] || (AskedWhileLoaded(h[..|h| - 1]) && (h[|h| - 1].AskedToReload? ==> IsLoaded(h[..|h| - 1])))
  }

  /** Everything posted to a frame, with the requests to reload */
  function AllPosted(h: seq<Mark>): seq<Event>
    decreases |h|
  {
    if h == [] then []
    else
      AllPosted(h[..|h| - 1]) +
      match h[|h| - 1] case Posted(event) => [event] case AskedToReload => [RELOAD] case _ => []
  }

  /** What the log holds for one generation */
  function LogOf(log: seq<Sent>, generation: nat): seq<Event>
    decreases |log|
  {
    if log == [] then []
    else
      LogOf(log[..|log| - 1], generation)
      + if log[|log| - 1].generation == generation then [log[|log| - 1].event] else []
  }

  // ----- The invariant -----

  function EventsOf(pending: seq<Pending>): (events: seq<Event>)
    ensures |events| == |pending|
  {
    seq(|pending|, i requires 0 <= i < |pending| => pending[i].event)
  }

  predicate Stamped(pending: seq<Pending>, generation: nat) { forall e | e in pending :: e.generation == generation }

  /** The queue of the current frame */
  predicate QueueOk(p: Page) {
    && Stamped(p.pending, p.generation) && |p.pending| <= MAX_PENDING
    && p.generation in p.histories && p.loaded == IsLoaded(p.histories[p.generation])
    && (p.loaded ==> p.pending == [])
    && EventsOf(p.pending) == Last(Waiting(p.histories[p.generation]), MAX_PENDING)
    && (p.timer.Some? ==> p.timer.value == p.generation)
    && (!HasFrame(p) ==> !p.loaded)
  }

  /** Every frame got what its history says. */
  ghost predicate LogOk(p: Page) {
    && (forall g: nat :: g in p.histories <==> g <= p.generation)
    && p.mutes.Keys == p.histories.Keys
    && p.generation in p.mutes && p.mutes[p.generation] == p.muted
    && (forall s | s in p.log :: s.generation <= p.generation)
    && (forall g | g in p.histories ::
          && AskedWhileLoaded(p.histories[g])
          && LogOf(p.log, g) == if p.mutes[g] || g == 0 then [] else Delivered(p.histories[g]))
  }

  ghost predicate Inv(p: Page) { QueueOk(p) && LogOk(p) }

  lemma MarkAppended(h: seq<Mark>, mark: Mark)
    ensures (h + [mark])[..|h|] == h && (h + [mark])[|h|] == mark
  {}

  lemma LogAppended(log: seq<Sent>, sent: Sent, g: nat)
    ensures LogOf(log + [sent], g) == LogOf(log, g) + if sent.generation == g then [sent.event] else []
  {
    assert (log + [sent])[..|log|] == log;
  }

  /** Dropping the oldest at every push keeps the last 64 of all that waited. */
  lemma LastOfLast<T>(queue: seq<T>, x: T, n: nat)
    requires n > 0
    ensures Last(Last(queue, n) + [x], n) == Last(queue + [x], n)
  {}

  lemma {:induction false} LoadedWaitsForNothing(h: seq<Mark>)
    ensures IsLoaded(h) ==> Waiting(h) == []
    decreases |h|
  {
    if h != [] {
      LoadedWaitsForNothing(h[..|h| - 1]);
    }
  }

  /** What sending to the current frame adds to the log of a generation */
  function Heard(p: Page, g: nat, events: seq<Event>): seq<Event> {
    if g == p.generation && HasFrame(p) && !p.muted then events else []
  }

  lemma SendToFrameLog(p: Page, event: Event, g: nat)
    ensures LogOf(SendToFrame(p, event, p.generation).log, g) == LogOf(p.log, g) + Heard(p, g, [event])
  {
    LogAppended(p.log, Sent(p.generation, event), g);
    assert LogOf(p.log, g) + [] == LogOf(p.log, g);
  }

  lemma SendToFrameFields(p: Page, event: Event, generation: nat)
    ensures SendToFrame(p, event, generation) == p.(log := SendToFrame(p, event, generation).log)
  {}

  /** Flushing sends every waiting event: the check of its generation never fails. */
  lemma {:induction false} SendAllSends(p: Page, events: seq<Pending>, g: nat)
    requires Stamped(events, p.generation)
    ensures LogOf(SendAll(p, events).log, g) == LogOf(p.log, g) + Heard(p, g, EventsOf(events))
    decreases |events|
  {
    hide LogOf, SendToFrame;
    if events == [] {
      assert EventsOf(events) == [];
      assert LogOf(p.log, g) + [] == LogOf(p.log, g);
    } else {
      var first, rest := events[0], events[1..];
      var next := SendToFrame(p, first.event, p.generation);
      SendToFrameLog(p, first.event, g);
      SendToFrameFields(p, first.event, p.generation);
      SendAllSends(next, rest, g);
      HeardTogether(p, g, first.event, EventsOf(rest));
      assert EventsOf(events) == [first.event] + EventsOf(rest);
    }
  }

  lemma HeardTogether(p: Page, g: nat, event: Event, events: seq<Event>)
    ensures LogOf(p.log, g) + Heard(p, g, [event]) + Heard(p, g, events) == LogOf(p.log, g) + Heard(p, g, [event] + events)
  {
    hide LogOf;
  }

  lemma {:induction false} SendAllGenerations(p: Page, events: seq<Pending>)
    requires forall s | s in p.log :: s.generation <= p.generation
    ensures forall s | s in SendAll(p, events).log :: s.generation <= p.generation
    decreases |events|
  {
    if events != [] {
      var first := events[0];
      SendAllGenerations(if first.generation == p.generation then SendToFrame(p, first.event, first.generation) else p,
                         events[1..]);
    }
  }

  // ----- Every input keeps it -----

  /** A mark on the current frame, with what it sends, leaves the other frames alone. */
  lemma MarkKeepsLog(p: Page, t: Page, mark: Mark, sent: seq<Event>)
    requires LogOk(p)
    requires t.generation == p.generation && t.muted == p.muted && t.mutes == p.mutes
    requires t.histories == p.histories[p.generation := p.histories[p.generation] + [mark]]
    requires forall s | s in t.log :: s.generation <= p.generation
    requires forall g: nat :: LogOf(t.log, g) == LogOf(p.log, g) + Heard(p, g, sent)
    requires HasFrame(p) ==> Delivered(p.histories[p.generation] + [mark]) == Delivered(p.histories[p.generation]) + sent
    requires AskedWhileLoaded(p.histories[p.generation] + [mark])
    ensures LogOk(t)
  {
    hide LogOf, Delivered, AskedWhileLoaded;
    forall g | g in t.histories
      ensures AskedWhileLoaded(t.histories[g])
      ensures LogOf(t.log, g) == if t.mutes[g] || g == 0 then [] else Delivered(t.histories[g])
    {
      assert g in p.histories;
    }
  }

  lemma PostKeepsInv(p: Page, event: Event)
    requires Inv(p)
    ensures Inv(PostToFrame(p, event))
  {
    hide QueueOk, LogOk;
    if !HasFrame(p) || !p.loaded {
      QueueKeepsInv(p, event);
    } else {
      DirectKeepsInv(p, event);
    }
  }

  lemma QueueKeepsInv(p: Page, event: Event)
    requires Inv(p) && (!HasFrame(p) || !p.loaded)
    ensures Inv(PostToFrame(p, event))
  {
    hide LogOf, Delivered, Waiting, IsLoaded, AskedWhileLoaded;
    var t, h := PostToFrame(p, event), p.histories[p.generation];
    PostedMark(h, event);
    LastOfLast(Waiting(h), event, MAX_PENDING);
    EventsOfLast(p.pending, Pending(p.generation, event));
    assert forall g: nat :: LogOf(t.log, g) == LogOf(p.log, g) + [];
    MarkKeepsLog(p, t, Posted(event), []);
  }

  lemma DirectKeepsInv(p: Page, event: Event)
    requires Inv(p) && HasFrame(p) && p.loaded
    ensures Inv(PostToFrame(p, event))
  {
    hide LogOf, Delivered, Waiting, IsLoaded, AskedWhileLoaded;
    var t, h := PostToFrame(p, event), p.histories[p.generation];
    PostedMark(h, event);
    forall g: nat
      ensures LogOf(t.log, g) == LogOf(p.log, g) + Heard(p, g, [event])
    {
      SendToFrameLog(p, event, g);
    }
    MarkKeepsLog(p, t, Posted(event), [event]);
  }

  lemma PostedMark(h: seq<Mark>, event: Event)
    ensures AskedWhileLoaded(h) ==> AskedWhileLoaded(h + [Posted(event)])
    ensures IsLoaded(h + [Posted(event)]) == IsLoaded(h)
    ensures Waiting(h + [Posted(event)]) == if IsLoaded(h) then Waiting(h) else Waiting(h) + [event]
    ensures Delivered(h + [Posted(event)]) == Delivered(h) + if IsLoaded(h) then [event] else []
  {
    MarkAppended(h, Posted(event));
  }

  lemma EventsOfLast(pending: seq<Pending>, e: Pending)
    requires |pending| <= MAX_PENDING
    ensures EventsOf(Last(pending + [e], MAX_PENDING)) == Last(EventsOf(pending) + [e.event], MAX_PENDING)
    ensures forall x | x in Last(pending + [e], MAX_PENDING) :: x in pending || x == e
    ensures |Last(pending + [e], MAX_PENDING)| <= MAX_PENDING
  {}

  lemma LoadKeepsInv(p: Page, generation: nat)
    requires Inv(p)
    ensures Inv(FrameLoaded(p, generation))
  {
    hide LogOf, Delivered, Waiting, IsLoaded, AskedWhileLoaded;
    if HasFrame(p) && generation == p.generation {
      var h := p.histories[p.generation];
      var marked := Marked(p, Loaded).(loaded := true, pending := []);
      var t := SendAll(marked, p.pending);
      SendAllFields(marked, p.pending);
      SendAllGenerations(marked, p.pending);
      forall g: nat
        ensures LogOf(t.log, g) == LogOf(p.log, g) + Heard(p, g, EventsOf(p.pending))
      {
        SendAllSends(marked, p.pending, g);
      }
      LoadedMark(h);
      MarkKeepsLog(p, t, Loaded, EventsOf(p.pending));
    }
  }

  lemma LoadedMark(h: seq<Mark>)
    ensures AskedWhileLoaded(h) ==> AskedWhileLoaded(h + [Loaded])
    ensures IsLoaded(h + [Loaded]) && Waiting(h + [Loaded]) == []
    ensures Delivered(h + [Loaded]) == Delivered(h) + Last(Waiting(h), MAX_PENDING)
  {
    MarkAppended(h, Loaded);
  }

  lemma WillReloadMark(h: seq<Mark>)
    ensures AskedWhileLoaded(h) ==> AskedWhileLoaded(h + [WillReload])
    ensures !IsLoaded(h + [WillReload]) && Waiting(h + [WillReload]) == Waiting(h)
    ensures Delivered(h + [WillReload]) == Delivered(h)
  {
    MarkAppended(h, WillReload);
  }

  lemma AskedMark(h: seq<Mark>)
    ensures AskedWhileLoaded(h) && IsLoaded(h) ==> AskedWhileLoaded(h + [AskedToReload])
    ensures IsLoaded(h + [AskedToReload]) == IsLoaded(h) && Waiting(h + [AskedToReload]) == Waiting(h)
    ensures Delivered(h + [AskedToReload]) == Delivered(h) + [RELOAD]
  {
    MarkAppended(h, AskedToReload);
  }

  lemma CreateKeepsInv(p: Page, muted: bool)
    requires Inv(p)
    ensures Inv(CreateFrame(p, muted))
  {
    hide Waiting, IsLoaded, Delivered, LogOf, AskedWhileLoaded;
    var t := CreateFrame(p, muted);
    NewFrame();
    assert EventsOf([]) == [];
    NothingLogged(p.log, t.generation);
    forall g | g in t.histories
      ensures AskedWhileLoaded(t.histories[g])
      ensures LogOf(t.log, g) == if t.mutes[g] || g == 0 then [] else Delivered(t.histories[g])
    {
      assert g != t.generation ==> g in p.histories;
    }
  }

  lemma NewFrame()
    ensures !IsLoaded([]) && Waiting([]) == [] && Delivered([]) == [] && AskedWhileLoaded([])
  {}

  lemma {:induction false} NothingLogged(log: seq<Sent>, g: nat)
    requires forall s | s in log :: s.generation < g
    ensures LogOf(log, g) == []
    decreases |log|
  {
    if log != [] {
      NothingLogged(log[..|log| - 1], g);
    }
  }

  lemma LeavingKeepsInv(p: Page)
    requires Inv(p)
    ensures Inv(FrameWillReload(p))
  {
    hide LogOf, Delivered, Waiting, IsLoaded, AskedWhileLoaded;
    if HasFrame(p) {
      WillReloadMark(p.histories[p.generation]);
      assert forall g: nat :: LogOf(p.log, g) == LogOf(p.log, g) + [];
      assert Delivered(p.histories[p.generation]) == Delivered(p.histories[p.generation]) + [];
      MarkKeepsLog(p, FrameWillReload(p), WillReload, []);
    }
  }

  lemma ReloadKeepsInv(p: Page)
    requires Inv(p)
    ensures Inv(ReloadFrame(p))
  {
    hide LogOf, Delivered, Waiting, IsLoaded, AskedWhileLoaded;
    if HasFrame(p) && p.reloadSupported && p.loaded {
      AskedMark(p.histories[p.generation]);
      forall g: nat
        ensures LogOf(ReloadFrame(p).log, g) == LogOf(p.log, g) + Heard(p, g, [RELOAD])
      {
        SendToFrameLog(p, RELOAD, g);
      }
      MarkKeepsLog(p, ReloadFrame(p), AskedToReload, [RELOAD]);
    } else if HasFrame(p) {
      CreateKeepsInv(p, p.muted);
    }
  }

  lemma StepKeepsInv(p: Page, input: Input)
    requires Inv(p) && Enabled(p, input)
    ensures Inv(Step(p, input))
  {
    hide LogOk, CreateFrame, PostToFrame, FrameLoaded, FrameWillReload, ReloadFrame, IsLoaded, Waiting;
    match input
    case Bootstrap(muted) => CreateKeepsInv(p, muted);
    case Post(event) => PostKeepsInv(p, event);
    case Load(generation) => LoadKeepsInv(p, generation);
    case Ready(supported) => ReadyKeepsLog(p, supported);
    case Leaving => LeavingKeepsInv(p);
    case Reload => ReloadKeepsInv(p);
    case Timer => CreateKeepsInv(p, p.muted);
  }

  lemma ReadyKeepsLog(p: Page, supported: bool)
    requires LogOk(p)
    ensures LogOk(FrameReady(p, supported))
  {
    hide LogOf, Delivered, AskedWhileLoaded;
  }

  // ----- Runs -----

  predicate AllEnabled(p: Page, run: seq<Input>)
    requires p.generation in p.histories
    decreases |run|
  {
    run == [] || (Enabled(p, run[0]) && AllEnabled(Step(p, run[0]), run[1..]))
  }

  function Run(p: Page, run: seq<Input>): Page
    requires p.generation in p.histories && AllEnabled(p, run)
    decreases |run|
  {
    if run == [] then p else Run(Step(p, run[0]), run[1..])
  }

  lemma {:induction false} RunKeepsInv(p: Page, run: seq<Input>)
    requires Inv(p) && AllEnabled(p, run)
    ensures Inv(Run(p, run))
    decreases |run|
  {
    hide LogOk, Step, IsLoaded, Waiting;
    if run != [] {
      StepKeepsInv(p, run[0]);
      RunKeepsInv(Step(p, run[0]), run[1..]);
    }
  }

  lemma StartInv()
    ensures Inv(START)
  {
    NewFrame();
    assert EventsOf([]) == [];
    NothingLogged([], 0);
  }

  /**
   * At any time: the queue is bounded and holds events of the current frame only, none of them while that is loaded, a
   * timer that is set is for the current frame, and every frame got exactly what its history says.
   */
  lemma PageIsRight(run: seq<Input>)
    requires AllEnabled(START, run)
    ensures var p := Run(START, run);
            && |p.pending| <= MAX_PENDING && Stamped(p.pending, p.generation)
            && (p.loaded ==> p.pending == [])
            && (p.timer.Some? ==> p.timer.value == p.generation)
            && (forall g | g in p.histories && g > 0 ::
                  g in p.mutes && LogOf(p.log, g) == if p.mutes[g] then [] else Delivered(p.histories[g]))
  {
    hide LogOf, Delivered, Waiting, IsLoaded;
    StartInv();
    RunKeepsInv(START, run);
  }

  // ----- What is lost -----

  /** The one sequence is left of the other when some of its elements are taken out. */
  predicate Subsequence<T(==)>(a: seq<T>, b: seq<T>)
    decreases |b|
  {
    a == [] || (b != [] && (Subsequence(a, b[..|b| - 1])
                            || (a[|a| - 1] == b[|b| - 1] && Subsequence(a[..|a| - 1], b[..|b| - 1]))))
  }

  lemma SubsequenceAppend<T>(a: seq<T>, b: seq<T>, x: T)
    requires Subsequence(a, b)
    ensures Subsequence(a, b + [x]) && Subsequence(a + [x], b + [x])
  {
    assert (b + [x])[..|b|] == b && (a + [x])[..|a|] == a;
  }

  /** Taking out a stretch in the middle */
  lemma {:induction false} TakeOut<T>(a: seq<T>, gone: seq<T>, c: seq<T>, b: seq<T>)
    requires Subsequence(a + gone + c, b)
    ensures Subsequence(a + c, b)
    decreases |b|, |gone|
  {
    var all := a + gone + c;
    if gone == [] {
      assert a + gone == a;
    } else if Subsequence(all, b[..|b| - 1]) {
      TakeOut(a, gone, c, b[..|b| - 1]);
    } else if c == [] {
      assert all[..|all| - 1] == a + gone[..|gone| - 1] + c;
      SubsequenceAppend(a + gone[..|gone| - 1] + c, b[..|b| - 1], b[|b| - 1]);
      assert b[..|b| - 1] + [b[|b| - 1]] == b;
      TakeOut(a, gone[..|gone| - 1], c, b);
    } else {
      assert all[..|all| - 1] == a + gone + c[..|c| - 1];
      TakeOut(a, gone, c[..|c| - 1], b[..|b| - 1]);
      assert (a + c)[..|a + c| - 1] == a + c[..|c| - 1];
    }
  }

  /** What a frame has got and what waits for it is a part of what was posted, in the order of posting. */
  lemma {:induction false} DeliveredThenWaiting(h: seq<Mark>)
    requires AskedWhileLoaded(h)
    ensures Subsequence(Delivered(h) + Waiting(h), AllPosted(h))
    decreases |h|
  {
    hide Subsequence, IsLoaded;
    if h == [] {
      NothingOf<Event>();
    } else {
      var before, d, w := h[..|h| - 1], Delivered(h[..|h| - 1]), Waiting(h[..|h| - 1]);
      DeliveredThenWaiting(before);
      LoadedWaitsForNothing(before);
      match h[|h| - 1]
      case Posted(event) =>
        SubsequenceAppend(d + w, AllPosted(before), event);
        assert Delivered(h) + Waiting(h) == d + w + [event];
      case Loaded =>
        var kept := Last(w, MAX_PENDING);
        var gone := w[..|w| - |kept|];
        assert d + w == d + gone + kept;
        TakeOut(d, gone, kept, AllPosted(before));
        assert Delivered(h) + Waiting(h) == d + kept;
        assert AllPosted(h) == AllPosted(before);
      case AskedToReload =>
        SubsequenceAppend(d + w, AllPosted(before), RELOAD);
        assert Delivered(h) + Waiting(h) == d + w + [RELOAD];
      case WillReload =>
        assert Delivered(h) + Waiting(h) == d + w;
        assert AllPosted(h) == AllPosted(before);
    }
  }

  lemma NothingOf<T>()
    ensures Subsequence<T>([] + [], [])
  {}

  /** No wait of the frame was for more events than the queue takes. */
  predicate NeverOverflows(h: seq<Mark>)
    decreases |h|
  {
    h == [] || (NeverOverflows(h[..|h| - 1]) && (h[|h| - 1].Loaded? ==> |Waiting(h[..|h| - 1])| <= MAX_PENDING))
  }

  /** A frame gets its events in the order of posting, and all of them exactly if no wait overflows the queue. */
  lemma {:induction false} NothingIsLostIff(h: seq<Mark>)
    requires AskedWhileLoaded(h)
    ensures |Delivered(h)| + |Waiting(h)| <= |AllPosted(h)|
    ensures |Delivered(h)| + |Waiting(h)| == |AllPosted(h)| <==> NeverOverflows(h)
    ensures Delivered(h) + Waiting(h) == AllPosted(h) <==> NeverOverflows(h)
    decreases |h|
  {
    if h != [] {
      var before, d, w := h[..|h| - 1], Delivered(h[..|h| - 1]), Waiting(h[..|h| - 1]);
      NothingIsLostIff(before);
      LoadedWaitsForNothing(before);
      match h[|h| - 1]
      case Posted(event) =>
        assert d + (w + [event]) == d + w + [event];
        assert d + [event] + [] == d + [] + [event];
      case Loaded =>
        assert d + Last(w, MAX_PENDING) + [] == d + Last(w, MAX_PENDING);
      case AskedToReload =>
        assert d + [RELOAD] + [] == d + [] + [RELOAD];
      case WillReload =>
    }
  }

  lemma TimerOfCurrentFrame(p: Page)
    requires Inv(p) && p.timer.Some?
    ensures p.timer.value == p.generation
  {
    hide LogOk, IsLoaded, Waiting;
  }

  /** Whenever the timer fires in a run, it replaces the very frame that it was set for, and none created since. */
  lemma TimerIsCurrent(run: seq<Input>)
    requires AllEnabled(START, run) && Enabled(Run(START, run), Timer)
    ensures var p := Run(START, run);
            && p.timer == Some(p.generation)
            && p.generation in p.histories
            && Step(p, Timer).generation == p.timer.value + 1 && Step(p, Timer).timer.None?
  {
    hide LogOf, LogOk, Delivered, Waiting, IsLoaded, Run, AllEnabled;
    StartInv();
    RunKeepsInv(START, run);
    TimerOfCurrentFrame(Run(START, run));
  }

  // ----- What each handler does -----

  /** The events of a queue as they are posted into the frame of a generation */
  function Posts(pending: seq<Pending>, generation: nat): (sent: seq<Sent>)
    ensures |sent| == |pending|
  {
    seq(|pending|, i requires 0 <= i < |pending| => Sent(generation, pending[i].event))
  }

  lemma {:induction false} SendAllPosts(p: Page, events: seq<Pending>)
    requires p.generation > 0 && forall i | 0 <= i < |events| :: events[i].generation == p.generation
    ensures SendAll(p, events).log == if p.muted then p.log else p.log + Posts(events, p.generation)
    decreases |events|
  {
    if events != [] {
      var first := events[0];
      var sent := SendToFrame(p, first.event, first.generation);
      SendAllPosts(sent, events[1..]);
      assert Posts(events, p.generation) == [Sent(p.generation, first.event)] + Posts(events[1..], p.generation);
    }
  }

  /**
   * The load of the current frame posts everything that waits into it, in order and to nothing else, unless its origin is
   * not known; the load of any other frame does nothing.
   */
  lemma LoadIs(p: Page, generation: nat)
    requires Inv(p)
    ensures var t := FrameLoaded(p, generation);
            if p.generation > 0 && generation == p.generation then
              && t.loaded && t.pending == [] && t.generation == p.generation && t.timer == p.timer
              && t.log == (if p.muted then p.log else p.log + Posts(p.pending, p.generation))
            else t == p
  {
    hide LogOk, Waiting, IsLoaded, Posts;
    if p.generation > 0 && generation == p.generation {
      var loaded := Marked(p, Loaded).(loaded := true, pending := []);
      SendAllPosts(loaded, p.pending);
      SendAllFields(loaded, p.pending);
    }
  }

  /**
   * An event for a loaded frame is posted into it at once, and waits otherwise; only the oldest waiting one is dropped
   * for it, and only if there are 64.
   */
  lemma PostIs(p: Page, event: Event)
    requires Inv(p)
    ensures var t := PostToFrame(p, event);
            && t.generation == p.generation && t.loaded == p.loaded && t.timer == p.timer
            && (if p.generation > 0 && p.loaded then
                  t.pending == p.pending && t.log == p.log + if p.muted then [] else [Sent(p.generation, event)]
                else
                  && t.log == p.log
                  && t.pending
                     == (if |p.pending| < 64 then p.pending else p.pending[1..]) + [Pending(p.generation, event)])
  {
    hide LogOk, Waiting, IsLoaded;
    if |p.pending| == 64 {
      var longer := p.pending + [Pending(p.generation, event)];
      assert longer[|longer| - 64..] == p.pending[1..] + [Pending(p.generation, event)];
    }
  }

  /** Every new frame starts unloaded, with nothing waiting for it and nothing posted, and without a timer. */
  lemma CreateIs(p: Page, muted: bool)
    ensures var t := CreateFrame(p, muted);
            && t.generation == p.generation + 1 && !t.loaded && t.muted == muted && !t.reloadSupported
            && t.timer == None && t.pending == [] && t.log == p.log
            && t.histories == p.histories[t.generation := []] && t.mutes == p.mutes[t.generation := muted]
  {}

  lemma ReadyIs(p: Page, supported: bool)
    ensures FrameReady(p, supported) == p.(reloadSupported := if p.generation > 0 then supported else p.reloadSupported)
  {}

  /** What waits while a frame reloads by itself waits on, for its next load; the timer that would replace it is stopped. */
  lemma LeavingIs(p: Page)
    requires Inv(p)
    ensures var t := FrameWillReload(p);
            if p.generation == 0 then t == p
            else t == p.(timer := None, loaded := false, histories := t.histories)
  {}

  /** A frame that can reload by itself and is loaded is asked to, under a timer; any other one is replaced. */
  lemma ReloadIs(p: Page)
    requires Inv(p)
    ensures var t := ReloadFrame(p);
            if p.generation == 0 then t == p
            else if p.reloadSupported && p.loaded then
              t == p.(timer := Some(p.generation), histories := t.histories,
                      log := p.log + if p.muted then [] else [Sent(p.generation, "reload_iframe")])
            else t == CreateFrame(p, p.muted)
  {}

  /** The timer replaces the frame by one of the same origin. */
  lemma TimerIs(p: Page)
    ensures TimerFired(p) == CreateFrame(p, p.muted)
  {}

  // ----- The page as it runs -----

  class ShellPage {
    var frameGeneration: nat
    var frameLoaded: bool
    var muted: bool
    var reloadSupported: bool
    var reloadTimeout: bool
    var pendingEvents: seq<Pending>
    ghost var timerGeneration: nat
    ghost var log: seq<Sent>
    ghost var histories: map<nat, seq<Mark>>
    ghost var mutes: map<nat, bool>

    constructor ()
      ensures Value() == START
    {
      frameGeneration, frameLoaded, muted, reloadSupported, reloadTimeout := 0, false, false, false, false;
      pendingEvents, timerGeneration, log, histories, mutes := [], 0, [], map[0 := []], map[0 := false];
    }

    ghost function Value(): Page
      reads this
    {
      Page(frameGeneration, frameLoaded, muted, reloadSupported,
           if reloadTimeout then Some(timerGeneration) else None, pendingEvents, log, histories, mutes)
    }

    ghost method Mark(mark: Mark)
      requires frameGeneration in histories
      modifies this`histories
      ensures Value() == Marked(old(Value()), mark)
    {
      histories := histories[frameGeneration := histories[frameGeneration] + [mark]];
    }

    method SendEvent(event: Event, generation: nat)
      modifies this`log
      ensures Value() == SendToFrame(old(Value()), event, generation)
    {
      if frameGeneration == 0 || generation != frameGeneration {
        return;
      }
      if muted {
        return;
      }
      log := log + [Sent(generation, event)];
    }

    method PostEvent(event: Event)
      requires Inv(Value())
      modifies this`pendingEvents, this`log, this`histories
      ensures Value() == PostToFrame(old(Value()), event) && Inv(Value())
    {
      hide LogOk, IsLoaded, Waiting;
      PostKeepsInv(Value(), event);
      var generation := frameGeneration;
      Mark(Posted(event));
      if frameGeneration == 0 || !frameLoaded {
        pendingEvents := pendingEvents + [Pending(generation, event)];
        ghost var all := pendingEvents;
        while |pendingEvents| > MAX_PENDING
          invariant |all| <= MAX_PENDING + 1
          invariant |pendingEvents| >= MAX_PENDING || pendingEvents == all
          invariant pendingEvents == Last(all, |pendingEvents|)
          modifies this`pendingEvents
        {
          pendingEvents := pendingEvents[1..];
        }
        return;
      }
      SendEvent(event, generation);
    }

    method FlushPendingEvents()
      modifies this`pendingEvents, this`log
      ensures Value() == SendAll(old(Value()).(pending := []), old(pendingEvents))
    {
      var pending := pendingEvents;
      pendingEvents := [];
      ghost var start := Value();
      assert pending[0..] == pending;
      for i := 0 to |pending|
        invariant SendAll(Value(), pending[i..]) == SendAll(start, pending)
        invariant frameGeneration == old(frameGeneration) && pendingEvents == []
        modifies this`log
      {
        assert pending[i..][1..] == pending[i + 1..];
        if pending[i].generation == frameGeneration {
          SendEvent(pending[i].event, pending[i].generation);
        }
      }
      assert pending[|pending|..] == [];
    }

    method OnLoad(generation: nat)
      requires Inv(Value())
      modifies this`frameLoaded, this`pendingEvents, this`log, this`histories
      ensures Value() == FrameLoaded(old(Value()), generation) && Inv(Value())
    {
      hide LogOk, IsLoaded, Waiting, SendAll;
      LoadKeepsInv(Value(), generation);
      if frameGeneration == 0 || generation != frameGeneration {
        return;
      }
      Mark(Loaded);
      frameLoaded := true;
      FlushPendingEvents();
    }

    method CreateIframe(mute: bool)
      modifies this
      ensures Value() == CreateFrame(old(Value()), mute)
    {
      if reloadTimeout {
        reloadTimeout := false;
      }
      frameGeneration := frameGeneration + 1;
      pendingEvents := [];
      frameLoaded, reloadSupported, muted := false, false, mute;
      histories, mutes := histories[frameGeneration := []], mutes[frameGeneration := mute];
    }

    method OnReady(supported: bool)
      modifies this`reloadSupported
      ensures Value() == FrameReady(old(Value()), supported)
    {
      if frameGeneration == 0 {
        return;
      }
      reloadSupported := supported;
    }

    method OnWillReload()
      requires frameGeneration in histories
      modifies this`reloadTimeout, this`frameLoaded, this`histories
      ensures Value() == FrameWillReload(old(Value()))
    {
      if frameGeneration == 0 {
        return;
      }
      Mark(WillReload);
      reloadTimeout := false;
      frameLoaded := false;
    }

    method ReloadIframe()
      requires frameGeneration in histories
      modifies this
      ensures Value() == ReloadFrame(old(Value()))
    {
      if frameGeneration == 0 {
        return;
      }
      if reloadSupported && frameLoaded {
        Mark(AskedToReload);
        SendEvent(RELOAD, frameGeneration);
        reloadTimeout, timerGeneration := true, frameGeneration;
        return;
      }
      CreateIframe(muted);
    }

    /** The timer fires for the frame it was set for. */
    method OnReloadTimeout()
      requires Inv(Value()) && reloadTimeout
      modifies this
      ensures old(timerGeneration) == old(frameGeneration)
      ensures Value() == TimerFired(old(Value()))
    {
      hide Inv;
      TimerOfCurrentFrame(Value());
      reloadTimeout := false;
      CreateIframe(muted);
    }
  }
}
