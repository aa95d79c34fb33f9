/** `MessagesSearchMerged`: one list of found messages from the pages of a history and of the one it was migrated from. */
module SearchMerged {

  type MessageId = nat

  /** One page of results, with the total that came with it */
  datatype Page = Page(total: int, messages: seq<MessageId>)

  datatype Found = Found(total: int, messages: seq<MessageId>, nextToken: string)

  const NOTHING := Found(-1, [], "")

  datatype Merged = Merged(
    hasMigrated: bool, concated: Found, migratedFirst: Found, waitingForTotal: bool, isFull: bool,
    newFounds: nat, nextFounds: nat)

  /** `clear` and then `search` */
  function Searched(hasMigrated: bool): Merged { Merged(hasMigrated, NOTHING, NOTHING, hasMigrated, false, 0, 0) }

  // ----- The handlers -----

  function AddFound(m: Merged, data: Found): Merged {
    m.(concated := m.concated.(messages := m.concated.messages + data.messages))
  }

  function CheckWaitingForTotal(m: Merged): Merged {
    if !m.waitingForTotal then m.(newFounds := m.newFounds + 1)
    else if m.concated.total >= 0 && m.migratedFirst.total >= 0 then
      m.(waitingForTotal := false, concated := m.concated.(total := m.concated.total + m.migratedFirst.total),
         newFounds := m.newFounds + 1)
    else m
  }

  function CheckFull(m: Merged, data: Found): Merged {
    if data.total == |m.concated.messages| then AddFound(m.(isFull := true), m.migratedFirst) else m
  }

  /** A page of the history */
  function MainArrived(m: Merged, data: Found): Merged {
    if data.nextToken == m.concated.nextToken then
      var added := CheckFull(AddFound(m, data), data);
      added.(nextFounds := added.nextFounds + 1)
    else CheckWaitingForTotal(CheckFull(m.(concated := data), data))
  }

  /** A page of the history it was migrated from */
  function MigratedArrived(m: Merged, data: Found): Merged {
    var added := if m.isFull then AddFound(m, data) else m;
    if data.nextToken == m.migratedFirst.nextToken then added.(nextFounds := added.nextFounds + 1)
    else CheckWaitingForTotal(added.(migratedFirst := data))
  }

  // ----- Runs -----

  /** What the two searches will find, page by page, for one token */
  datatype Feed = Feed(token: string, main: seq<Page>, migrated: seq<Page>)

  /** How many pages have come from each side, and whether a further one is on its way */
  datatype World = World(m: Merged, i: nat, j: nat, mainPending: bool, migratedPending: bool)

  function FoundPage(page: Page, token: string): Found { Found(page.total, page.messages, token) }

  function Begin(hasMigrated: bool): World { World(Searched(hasMigrated), 0, 0, true, hasMigrated) }

  datatype Event = SearchMore | MainPage | MigratedPage | MainFailed | MigratedFailed

  predicate Enabled(feed: Feed, w: World, e: Event) {
    match e
    case SearchMore => true
    case MainPage => w.mainPending && w.i < |feed.main|
    case MigratedPage => w.migratedPending && w.j < |feed.migrated|
    case MainFailed => w.mainPending
    case MigratedFailed => w.migratedPending
  }

  /** One search sends no second request before the first was answered. */
  function Step(feed: Feed, w: World, e: Event): World
    requires Enabled(feed, w, e)
  {
    match e
    case SearchMore =>
      if w.m.hasMigrated && w.m.isFull then w.(migratedPending := true) else w.(mainPending := true)
    case MainPage =>
      w.(m := MainArrived(w.m, FoundPage(feed.main[w.i], feed.token)), i := w.i + 1, mainPending := false)
    case MigratedPage =>
      w.(m := MigratedArrived(w.m, FoundPage(feed.migrated[w.j], feed.token)), j := w.j + 1, migratedPending := false)
    case MainFailed => w.(mainPending := false)
    case MigratedFailed => w.(migratedPending := false)
  }

  predicate AllEnabled(feed: Feed, w: World, run: seq<Event>)
    decreases |run|
  {
    run == [] || (Enabled(feed, w, run[0]) && AllEnabled(feed, Step(feed, w, run[0]), run[1..]))
  }

  function Run(feed: Feed, w: World, run: seq<Event>): World
    requires AllEnabled(feed, w, run)
    decreases |run|
  {
    if run == [] then w else Run(feed, Step(feed, w, run[0]), run[1..])
  }

  // ----- What the pages amount to -----

  function Messages(pages: seq<Page>): seq<MessageId>
    decreases |pages|
  {
    if pages == [] then [] else Messages(pages[..|pages| - 1]) + pages[|pages| - 1].messages
  }

  /** Some page of the history said that the messages up to its end are all there are. */
  predicate Full(pages: seq<Page>)
    decreases |pages|
  {
    pages != [] && (Full(pages[..|pages| - 1]) || pages[|pages| - 1].total == |Messages(pages)|)
  }

  /**
   * The state after i pages of the history and j pages of the migrated one, in whatever order they came: first the
   * messages of the one, then, when it is full, those of the other, and the totals of the two first pages together.
   */
  function Expected(hasMigrated: bool, feed: Feed, i: nat, j: nat): Merged
    requires i <= |feed.main| && j <= |feed.migrated|
  {
    var both := i > 0 && (hasMigrated ==> j > 0);
    Merged(
      hasMigrated,
      Found(if i == 0 then -1 else feed.main[0].total + (if hasMigrated && j > 0 then feed.migrated[0].total else 0),
            Messages(feed.main[..i]) + (if Full(feed.main[..i]) then Messages(feed.migrated[..j]) else []),
            if i == 0 then "" else feed.token),
      if j == 0 then NOTHING else FoundPage(feed.migrated[0], feed.token),
      hasMigrated && !both,
      Full(feed.main[..i]),
      if both then 1 else 0,
      (if i > 0 then i - 1 else 0) + (if j > 0 then j - 1 else 0))
  }

  /** The totals of the pages are counts, and the token is not empty. */
  predicate Proper(feed: Feed) {
    feed.token != "" && (forall p | p in feed.main :: p.total >= 0) && forall p | p in feed.migrated :: p.total >= 0
  }

  ghost predicate Inv(feed: Feed, w: World) {
    && w.i <= |feed.main| && w.j <= |feed.migrated|
    && w.m == Expected(w.m.hasMigrated, feed, w.i, w.j)
    // Further pages of the migrated history are only asked for behind the last page of the other.
    && (w.m.hasMigrated && w.m.isFull ==> !w.mainPending)
    && (w.m.hasMigrated && !w.m.isFull ==> w.j <= 1 && (w.j == 1 ==> !w.migratedPending))
    && (!w.m.hasMigrated ==> w.j == 0 && !w.migratedPending)
  }

  lemma NextPage(pages: seq<Page>, i: nat)
    requires i < |pages|
    ensures Messages(pages[..i + 1]) == Messages(pages[..i]) + pages[i].messages
    ensures Full(pages[..i + 1]) <==> Full(pages[..i]) || pages[i].total == |Messages(pages[..i + 1])|
  {
    assert pages[..i + 1][..i] == pages[..i];
  }

  lemma NoPages(pages: seq<Page>)
    ensures Messages(pages[..0]) == [] && !Full(pages[..0])
  {}

  lemma FirstMigrated(feed: Feed)
    requires |feed.migrated| > 0
    ensures Messages(feed.migrated[..1]) == feed.migrated[0].messages
  {
    NextPage(feed.migrated, 0);
  }

  lemma FirstPageKeepsInv(feed: Feed, w: World)
    requires Proper(feed) && Inv(feed, w) && Enabled(feed, w, MainPage) && w.i == 0
    ensures Inv(feed, Step(feed, w, MainPage))
  {
    hide Messages, Full;
    NoPages(feed.main);
    NextPage(feed.main, 0);
    NoPages(feed.migrated);
    if w.j > 0 {
      FirstMigrated(feed);
      assert feed.migrated[0] in feed.migrated;
    }
    assert feed.main[0] in feed.main;
  }

  lemma NextPageKeepsInv(feed: Feed, w: World)
    requires Proper(feed) && Inv(feed, w) && Enabled(feed, w, MainPage) && w.i > 0
    ensures Inv(feed, Step(feed, w, MainPage))
  {
    hide Messages, Full;
    NextPage(feed.main, w.i);
    NoPages(feed.migrated);
    if w.j > 0 {
      FirstMigrated(feed);
    }
    assert feed.main[..w.i + 1][0] == feed.main[0];
    assert w.m.concated.nextToken == feed.token;
  }

  lemma MigratedPageKeepsInv(feed: Feed, w: World)
    requires Proper(feed) && Inv(feed, w) && Enabled(feed, w, MigratedPage)
    ensures Inv(feed, Step(feed, w, MigratedPage))
  {
    hide Messages, Full;
    NoPages(feed.main);
    NoPages(feed.migrated);
    NextPage(feed.migrated, w.j);
    assert feed.migrated[w.j] in feed.migrated;
    if w.i > 0 {
      assert feed.main[0] in feed.main;
    }
  }

  lemma StepKeepsInv(feed: Feed, w: World, e: Event)
    requires Proper(feed) && Inv(feed, w) && Enabled(feed, w, e)
    ensures Inv(feed, Step(feed, w, e)) && Step(feed, w, e).m.hasMigrated == w.m.hasMigrated
  {
    hide Messages, Full, Proper;
    match e
    case MainPage =>
      if w.i == 0 {
        FirstPageKeepsInv(feed, w);
      } else {
        NextPageKeepsInv(feed, w);
      }
    case MigratedPage => MigratedPageKeepsInv(feed, w);
    case _ =>
  }

  lemma {:induction false} RunKeepsInv(feed: Feed, w: World, run: seq<Event>)
    requires Proper(feed) && Inv(feed, w) && AllEnabled(feed, w, run)
    ensures Inv(feed, Run(feed, w, run)) && Run(feed, w, run).m.hasMigrated == w.m.hasMigrated
    decreases |run|
  {
    hide Inv, Step, Enabled, Proper;
    if run != [] {
      StepKeepsInv(feed, w, run[0]);
      RunKeepsInv(feed, Step(feed, w, run[0]), run[1..]);
    }
  }

  /** Only the numbers of pages count, not the order in which they came. */
  lemma EveryOrderAgrees(feed: Feed, hasMigrated: bool, run: seq<Event>)
    requires Proper(feed) && AllEnabled(feed, Begin(hasMigrated), run)
    ensures var w := Run(feed, Begin(hasMigrated), run);
            && w.i <= |feed.main| && w.j <= |feed.migrated|
            && w.m == Expected(hasMigrated, feed, w.i, w.j)
  {
    NoPages(feed.main);
    NoPages(feed.migrated);
    RunKeepsInv(feed, Begin(hasMigrated), run);
  }

  // ----- An empty token -----

  /** Without a token the first page passes for a next one: the total never comes, and no new search is reported. */
  lemma {:induction false} EmptyTokenReportsNothing(feed: Feed, w: World, run: seq<Event>)
    requires feed.token == "" && AllEnabled(feed, w, run)
    requires w.m.concated.nextToken == "" && w.m.migratedFirst.nextToken == ""
    requires w.m.concated.total == -1 && w.m.newFounds == 0
    ensures Run(feed, w, run).m.concated.total == -1 && Run(feed, w, run).m.newFounds == 0
    decreases |run|
  {
    if run != [] {
      EmptyTokenReportsNothing(feed, Step(feed, w, run[0]), run[1..]);
    }
  }

  /**
   * In every run in which the first pages of the searched histories came, in whatever order, with whatever pages and
   * failures behind them: the search is reported once, with the totals of its first pages together, exactly when its
   * token is not empty.
   */
  lemma FirstPagesAreReportedIff(feed: Feed, hasMigrated: bool, run: seq<Event>)
    requires AllEnabled(feed, Begin(hasMigrated), run)
    requires (forall p | p in feed.main :: p.total >= 0) && forall p | p in feed.migrated :: p.total >= 0
    requires var w := Run(feed, Begin(hasMigrated), run); w.i > 0 && (hasMigrated ==> w.j > 0)
    ensures var w := Run(feed, Begin(hasMigrated), run);
            && w.i <= |feed.main| && w.j <= |feed.migrated|
            && (w.m.newFounds == 1
                && w.m.concated.total == feed.main[0].total + (if hasMigrated then feed.migrated[0].total else 0)
                <==> feed.token != "")
  {
    hide Run, AllEnabled, Messages, Full;
    if feed.token != "" {
      EveryOrderAgrees(feed, hasMigrated, run);
    } else {
      PagesCome(feed, Begin(hasMigrated), run);
      EmptyTokenReportsNothing(feed, Begin(hasMigrated), run);
    }
  }

  /** The first pages are on their way from the start, in either order. */
  lemma FirstPagesAreOnTheirWay(feed: Feed, hasMigrated: bool)
    requires |feed.main| > 0 && |feed.migrated| > 0
    ensures AllEnabled(feed, Begin(hasMigrated), [MainPage])
    ensures hasMigrated ==> AllEnabled(feed, Begin(hasMigrated), [MainPage, MigratedPage])
                            && AllEnabled(feed, Begin(hasMigrated), [MigratedPage, MainPage])
  {
    hide MainArrived, MigratedArrived;
    assert [MainPage][1..] == [] && [MigratedPage][1..] == [];
    assert [MainPage, MigratedPage][1..] == [MigratedPage] && [MigratedPage, MainPage][1..] == [MainPage];
    var begin := Begin(hasMigrated);
    if hasMigrated {
      var main, migrated := Step(feed, begin, MainPage), Step(feed, begin, MigratedPage);
      assert Enabled(feed, main, MigratedPage) && Enabled(feed, migrated, MainPage);
      assert AllEnabled(feed, main, [MigratedPage]) && AllEnabled(feed, migrated, [MainPage]);
    }
  }

  /** More is asked of the history until its list is complete, and then of the migrated one, if there is one. */
  lemma SearchMoreIs(feed: Feed, w: World)
    ensures Enabled(feed, w, SearchMore)
    ensures var t := Step(feed, w, SearchMore);
            && t.m == w.m && t.i == w.i && t.j == w.j
            && (t.migratedPending <==> w.migratedPending || (w.m.hasMigrated && w.m.isFull))
            && (t.mainPending <==> w.mainPending || !(w.m.hasMigrated && w.m.isFull))
  {}

  /** A page, and a failure, is an answer to the one search under way: the next one needs another call. */
  lemma AnswersAreAwaited(feed: Feed, w: World, e: Event)
    requires Enabled(feed, w, e)
    ensures e == MainPage || e == MainFailed ==> w.mainPending && !Step(feed, w, e).mainPending
    ensures e == MigratedPage || e == MigratedFailed ==> w.migratedPending && !Step(feed, w, e).migratedPending
  {}

  /** The second page comes when it was asked for. */
  lemma SecondPageComes(feed: Feed)
    requires |feed.main| >= 2
    ensures var run := [MainPage, SearchMore, MainPage];
            AllEnabled(feed, Begin(false), run) && Run(feed, Begin(false), run).i == 2
  {
    hide MainArrived;
    var begin := Begin(false);
    var one := Step(feed, begin, MainPage);
    SearchKind(feed, begin);
    SearchMoreIs(feed, one);
    var more := Step(feed, one, SearchMore);
    var two := Step(feed, more, MainPage);
    assert [MainPage, SearchMore, MainPage][1..] == [SearchMore, MainPage] && [SearchMore, MainPage][1..] == [MainPage]
        && [MainPage][1..] == [];
    assert AllEnabled(feed, two, []) && Run(feed, two, []) == two;
    assert AllEnabled(feed, more, [MainPage]) && Run(feed, more, [MainPage]) == two;
    assert AllEnabled(feed, one, [SearchMore, MainPage]) && Run(feed, one, [SearchMore, MainPage]) == two;
  }

  lemma SearchKind(feed: Feed, w: World)
    requires Enabled(feed, w, MainPage)
    ensures Step(feed, w, MainPage).m.hasMigrated == w.m.hasMigrated
  {}

  lemma {:induction false} PagesCome(feed: Feed, w: World, run: seq<Event>)
    requires AllEnabled(feed, w, run) && w.i <= |feed.main| && w.j <= |feed.migrated|
    ensures var t := Run(feed, w, run); t.i <= |feed.main| && t.j <= |feed.migrated|
    decreases |run|
  {
    hide MainArrived, MigratedArrived;
    if run != [] {
      PagesCome(feed, Step(feed, w, run[0]), run[1..]);
    }
  }

  // ----- The class -----

  class MessagesSearchMerged {
    const hasMigrated: bool
    var concatedFound: Found
    var migratedFirstFound: Found
    var waitingForTotal: bool
    var isFull: bool
    var newFounds: nat
    var nextFounds: nat

    constructor (hasMigrated: bool)
      ensures this.hasMigrated == hasMigrated
      ensures Value() == Merged(hasMigrated, NOTHING, NOTHING, false, false, 0, 0)
    {
      this.hasMigrated := hasMigrated;
      concatedFound, migratedFirstFound, waitingForTotal, isFull := NOTHING, NOTHING, false, false;
      newFounds, nextFounds := 0, 0;
    }

    function Value(): Merged
      reads this
    {
      Merged(hasMigrated, concatedFound, migratedFirstFound, waitingForTotal, isFull, newFounds, nextFounds)
    }

    method Clear()
      modifies this`concatedFound, this`migratedFirstFound, this`waitingForTotal, this`isFull
      ensures Value() == old(Value()).(concated := NOTHING, migratedFirst := NOTHING, waitingForTotal := false,
                                       isFull := false)
    {
      concatedFound, migratedFirstFound, waitingForTotal, isFull := NOTHING, NOTHING, false, false;
    }

    /** `search`; behind `Clear` the two make the start of a run. */
    method Search()
      modifies this`waitingForTotal, this`isFull
      ensures Value() == old(Value()).(waitingForTotal := hasMigrated, isFull := false)
      ensures old(Value()).concated == NOTHING && old(Value()).migratedFirst == NOTHING
          ==> Value() == Searched(hasMigrated).(newFounds := newFounds, nextFounds := nextFounds)
    {
      isFull := false;
      waitingForTotal := hasMigrated;
    }

    /** `searchMore`: which of the two searches is asked for more */
    method SearchMore() returns (ofMigrated: bool)
      ensures ofMigrated <==> hasMigrated && isFull
    {
      if hasMigrated && isFull {
        ofMigrated := true;
      } else {
        ofMigrated := false;
      }
    }

    method AddFoundMessages(data: Found)
      modifies this`concatedFound
      ensures Value() == AddFound(old(Value()), data)
    {
      ghost var was := concatedFound.messages;
      for i := 0 to |data.messages|
        invariant concatedFound == old(concatedFound).(messages := was + data.messages[..i])
      {
        concatedFound := concatedFound.(messages := concatedFound.messages + [data.messages[i]]);
        assert was + data.messages[..i] + [data.messages[i]] == was + data.messages[..i + 1];
      }
      assert data.messages[..|data.messages|] == data.messages;
    }

    method CheckForTotal()
      modifies this`concatedFound, this`waitingForTotal, this`newFounds
      ensures Value() == CheckWaitingForTotal(old(Value()))
    {
      if waitingForTotal {
        if concatedFound.total >= 0 && migratedFirstFound.total >= 0 {
          waitingForTotal := false;
          concatedFound := concatedFound.(total := concatedFound.total + migratedFirstFound.total);
          newFounds := newFounds + 1;
        }
      } else {
        newFounds := newFounds + 1;
      }
    }

    method CheckForFull(data: Found)
      modifies this`concatedFound, this`isFull
      ensures Value() == CheckFull(old(Value()), data)
    {
      if data.total == |concatedFound.messages| {
        isFull := true;
        AddFoundMessages(migratedFirstFound);
      }
    }

    method MainFound(data: Found)
      modifies this`concatedFound, this`waitingForTotal, this`isFull, this`newFounds, this`nextFounds
      ensures Value() == MainArrived(old(Value()), data)
    {
      if data.nextToken == concatedFound.nextToken {
        AddFoundMessages(data);
        CheckForFull(data);
        nextFounds := nextFounds + 1;
      } else {
        concatedFound := data;
        CheckForFull(data);
        CheckForTotal();
      }
    }

    method MigratedFound(data: Found)
      modifies this`concatedFound, this`migratedFirstFound, this`waitingForTotal, this`newFounds, this`nextFounds
      ensures Value() == MigratedArrived(old(Value()), data)
    {
      if isFull {
        AddFoundMessages(data);
      }
      if data.nextToken == migratedFirstFound.nextToken {
        nextFounds := nextFounds + 1;
      } else {
        migratedFirstFound := data;
        CheckForTotal();
      }
    }
  }
}
