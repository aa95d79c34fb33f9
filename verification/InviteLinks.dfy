/** `InviteLinks`: the first slice of a peer's invite links, and the permanent link that only its front can hold. */
module InviteLinks {
  import opened Options

  type Peer = nat

  /** The fields of a link that the cache looks at; `rest` stands for the others. */
  datatype Link = Link(link: string, permanent: bool, revoked: bool, usage: int, rest: nat)

  datatype Links = Links(links: seq<Link>, count: int)

  /** The first slices, and the main link stored with each peer */
  datatype Cache = Cache(slices: map<Peer, Links>, main: map<Peer, string>)

  predicate Live(l: Link) { l.permanent && !l.revoked }

  function SliceOf(c: Cache, peer: Peer): Links {
    if peer in c.slices then c.slices[peer] else Links([], 0)
  }

  /** `lookupMyPermanent`: only the first element is looked at. */
  function Lookup(s: Links): Option<Link> {
    if s.links != [] && Live(s.links[0]) then Some(s.links[0]) else None
  }

  /** What the lookup stands for: the first live permanent link anywhere in the slice */
  function Search(links: seq<Link>): Option<Link> {
    if links == [] then None else if Live(links[0]) then Some(links[0]) else Search(links[1..])
  }

  // ----- The parts of a slice -----

  function WithoutLive(links: seq<Link>): seq<Link> {
    if links == [] then [] else (if Live(links[0]) then [] else [links[0]]) + WithoutLive(links[1..])
  }

  function IndexOfLive(links: seq<Link>): (i: nat)
    ensures i <= |links| && (i < |links| ==> Live(links[i]))
  {
    if links == [] || Live(links[0]) then 0 else 1 + IndexOfLive(links[1..])
  }

  function IndexOf(links: seq<Link>, link: string): (i: nat)
    ensures i <= |links| && (i < |links| ==> links[i].link == link)
  {
    if links == [] || links[0].link == link then 0 else 1 + IndexOf(links[1..], link)
  }

  /** `BringPermanentToFront` */
  function Fronted(links: seq<Link>): seq<Link> {
    var i := IndexOfLive(links);
    if i == |links| then links else [links[i]] + links[..i] + links[i + 1..]
  }

  function Replaced(links: seq<Link>, link: Link): seq<Link> {
    if links == [] then []
    else [if links[0].link == link.link then link else links[0]] + Replaced(links[1..], link)
  }

  function WithoutLink(links: seq<Link>, known: Option<Link>): seq<Link> {
    if links == [] then []
    else (if known.Some? && links[0].link == known.value.link then [] else [links[0]]) + WithoutLink(links[1..], known)
  }

  function WithoutFirst(s: Links): Links
    requires s.links != []
  {
    Links(s.links[1..], if s.count > 0 then s.count - 1 else s.count)
  }

  function Max(a: int, b: int): int { if a < b then b else a }

  // ----- The operations -----

  /** `prependMyToFirstSlice` */
  function Prepended(c: Cache, peer: Peer, link: Link): Cache {
    var was := SliceOf(c, peer);
    var had := Lookup(was).Some?;
    var s := if link.permanent && had then WithoutFirst(was) else was;
    var links := if had && !link.permanent then [s.links[0], link] + s.links[1..] else [link] + s.links;
    Cache(c.slices[peer := Links(links, s.count + 1)],
          if link.permanent then c.main[peer := link.link] else c.main)
  }

  /** The answer to an edit or a revoke, as far as the slice is concerned */
  function Edited(c: Cache, peer: Peer, key: string, link: Link): Cache {
    if peer !in c.slices then c
    else
      var s := c.slices[peer];
      var j := IndexOf(s.links, key);
      if j == |s.links| then c
      else if link.revoked && !s.links[j].revoked then
        c.(slices := c.slices[peer := Links(s.links[..j] + s.links[j + 1..],
                                            if s.count > 0 then s.count - 1 else s.count)])
      else c.(slices := c.slices[peer := s.(links := s.links[j := link])])
  }

  /** The answer to `requestMyLinks` */
  function Loaded(c: Cache, peer: Peer, invites: seq<Link>, count: int): Cache {
    var known := Lookup(SliceOf(c, peer));
    var slice := WithoutLink(invites, known);
    if known.None? then
      var links := Fronted(slice);
      Cache(c.slices[peer := Links(links, count)],
            if Lookup(Links(links, count)).Some? then c.main[peer := links[0].link] else c.main)
    else
      var links := [known.value] + WithoutLive(slice);
      c.(slices := c.slices[peer := Links(links, Max(count, |links|))])
  }

  /** `setMyPermanent` with a permanent link */
  function PermanentSet(c: Cache, peer: Peer, link: Link): Cache {
    var was := SliceOf(c, peer);
    var known := Lookup(was);
    if known.Some? && known.value.link == link.link then
      c.(slices := c.slices[peer := was.(links := was.links[0 := known.value.(usage := link.usage)])])
    else
      var s := if known.Some? then WithoutFirst(was) else was;
      Cache(c.slices[peer := s.(links := [link] + s.links)], c.main[peer := link.link])
  }

  /** `clearMyPermanent` */
  function PermanentCleared(c: Cache, peer: Peer): Cache {
    if Lookup(SliceOf(c, peer)).None? then c
    else Cache(c.slices[peer := WithoutFirst(c.slices[peer])], c.main[peer := ""])
  }

  /** `applyExternalUpdate` */
  function Updated(c: Cache, peer: Peer, link: Link): Cache {
    if peer !in c.slices then c
    else
      var s := c.slices[peer];
      c.(slices := c.slices[peer := s.(links := Replaced(s.links, link))])
  }

  /** The slice of a peer is dropped when a request without a link was approved. */
  function Dropped(c: Cache, peer: Peer): Cache { c.(slices := c.slices - {peer}) }

  datatype Event =
    | Prepend(peer: Peer, link: Link)
    | Edit(peer: Peer, key: string, link: Link)
    | Load(peer: Peer, invites: seq<Link>, count: int)
    | SetPermanent(peer: Peer, link: Link)
    | ClearPermanent(peer: Peer)
    | Update(peer: Peer, link: Link)
    | Drop(peer: Peer)

  function Step(c: Cache, e: Event): Cache {
    match e
    case Prepend(peer, link) => Prepended(c, peer, link)
    case Edit(peer, key, link) => Edited(c, peer, key, link)
    case Load(peer, invites, count) => Loaded(c, peer, invites, count)
    case SetPermanent(peer, link) => PermanentSet(c, peer, link)
    case ClearPermanent(peer) => PermanentCleared(c, peer)
    case Update(peer, link) => Updated(c, peer, link)
    case Drop(peer) => Dropped(c, peer)
  }

  // ----- The invariant -----

  ghost predicate NoneLive(links: seq<Link>) { forall l | l in links :: !Live(l) }

  /** A live permanent link is at the front or nowhere. */
  ghost predicate OnlyFront(links: seq<Link>) { links != [] ==> NoneLive(links[1..]) }

  /** One peer: and the front one is the peer's main link. */
  ghost predicate PeerInv(c: Cache, peer: Peer) {
    peer in c.slices ==>
      && OnlyFront(c.slices[peer].links)
      && (Lookup(c.slices[peer]).Some? ==> peer in c.main && c.main[peer] == c.slices[peer].links[0].link)
  }

  ghost predicate Inv(c: Cache) { forall peer | peer in c.slices :: PeerInv(c, peer) }

  /** The front-only lookup agrees with a full search, and finds every live permanent link there is. */
  lemma LookupIsSearch(links: seq<Link>, count: int)
    requires OnlyFront(links)
    ensures Lookup(Links(links, count)) == Search(links)
    ensures forall l | l in links && Live(l) :: Lookup(Links(links, count)) == Some(l)
  {
    if links != [] {
      NothingToFind(links[1..]);
    }
  }

  lemma {:induction false} NothingToFind(links: seq<Link>)
    requires NoneLive(links)
    ensures Search(links) == None && IndexOfLive(links) == |links|
  {
    if links != [] {
      NothingToFind(links[1..]);
    }
  }

  lemma {:induction false} IndexOfLiveIsFirst(links: seq<Link>)
    ensures NoneLive(links[..IndexOfLive(links)])
  {
    if links != [] && !Live(links[0]) {
      IndexOfLiveIsFirst(links[1..]);
      var i := IndexOfLive(links);
      assert links[..i] == [links[0]] + links[1..][..i - 1];
    }
  }

  lemma {:induction false} WithoutLiveHasNone(links: seq<Link>)
    ensures NoneLive(WithoutLive(links))
  {
    if links != [] {
      WithoutLiveHasNone(links[1..]);
    }
  }

  /** How many live permanent links a slice from the server holds */
  function LiveCount(links: seq<Link>): nat {
    if links == [] then 0 else (if Live(links[0]) then 1 else 0) + LiveCount(links[1..])
  }

  lemma {:induction false} LiveCountZero(links: seq<Link>)
    ensures LiveCount(links) == 0 <==> NoneLive(links)
  {
    if links != [] {
      LiveCountZero(links[1..]);
      assert links == [links[0]] + links[1..];
    }
  }

  lemma {:induction false} LiveCountAt(links: seq<Link>, i: nat)
    requires i < |links| && Live(links[i])
    ensures LiveCount(links) == 1 + LiveCount(links[..i]) + LiveCount(links[i + 1..])
  {
    if i > 0 {
      LiveCountAt(links[1..], i - 1);
      assert links[..i] == [links[0]] + links[1..][..i - 1] && links[i + 1..] == links[1..][i..];
      assert links[..i][1..] == links[1..][..i - 1];
    }
  }

  /** Bringing the first one to the front is enough exactly when there are no two of them. */
  lemma FrontedIff(links: seq<Link>)
    ensures OnlyFront(Fronted(links)) <==> LiveCount(links) <= 1
  {
    hide Live, NoneLive, LiveCount, IndexOfLive, OnlyFront;
    var i := IndexOfLive(links);
    IndexOfLiveIsFirst(links);
    if i < |links| {
      var before, behind := links[..i], links[i + 1..];
      LiveCountAt(links, i);
      LiveCountZero(before);
      LiveCountZero(behind);
      NoneLiveAppend(before, behind);
      assert Fronted(links) == [links[i]] + (before + behind);
      OnlyFrontOf(links[i], before + behind);
    } else {
      assert links[..i] == links;
      LiveCountZero(links);
      NoneLiveTail(links);
    }
  }

  lemma OnlyFrontOf(first: Link, others: seq<Link>)
    ensures OnlyFront([first] + others) <==> NoneLive(others)
  {
    assert ([first] + others)[1..] == others;
  }

  lemma NoneLiveAppend(a: seq<Link>, b: seq<Link>)
    ensures NoneLive(a + b) <==> NoneLive(a) && NoneLive(b)
  {
    assert forall l :: l in a + b <==> l in a || l in b;
  }

  lemma NoneLiveTail(links: seq<Link>)
    requires NoneLive(links)
    ensures OnlyFront(links)
  {}

  // ----- What keeps it -----

  /**
   * The assumptions about the server. A list holds at most one live permanent link, where that matters; an edit and an
   * update keep a link permanent or not, and never take back that it was revoked; an edit keeps its string.
   */
  ghost predicate Expected(c: Cache, e: Event) {
    match e
    case Load(peer, invites, _) => Lookup(SliceOf(c, peer)).None? ==> LiveCount(invites) <= 1
    case Edit(peer, key, link) =>
      link.link == key && forall l | l in SliceOf(c, peer).links && l.link == key :: SameKind(l, link)
    case Update(peer, link) => forall l | l in SliceOf(c, peer).links && l.link == link.link :: SameKind(l, link)
    case SetPermanent(_, link) => link.permanent
    case _ => true
  }

  predicate SameKind(was: Link, now: Link) { now.permanent == was.permanent && (was.revoked ==> now.revoked) }

  lemma PrependKeepsInv(c: Cache, peer: Peer, link: Link)
    requires PeerInv(c, peer)
    ensures PeerInv(Prepended(c, peer, link), peer)
  {
    var links := Prepended(c, peer, link).slices[peer].links;
    var was := SliceOf(c, peer).links;
    if Lookup(SliceOf(c, peer)).Some? && !link.permanent {
      assert links[1..] == [link] + was[1..];
    } else if Lookup(SliceOf(c, peer)).Some? {
      assert links[1..] == was[1..];
    } else {
      assert links[1..] == was;
      if was != [] {
        assert was == [was[0]] + was[1..];
      }
    }
  }

  lemma LoadKeepsInvIff(c: Cache, peer: Peer, invites: seq<Link>, count: int)
    requires PeerInv(c, peer)
    ensures PeerInv(Loaded(c, peer, invites, count), peer)
       <==> (Lookup(SliceOf(c, peer)).None? ==> LiveCount(invites) <= 1)
  {
    var known := Lookup(SliceOf(c, peer));
    var slice := WithoutLink(invites, known);
    if known.None? {
      NothingDropped(invites);
      FrontedIff(slice);
    } else {
      WithoutLiveHasNone(slice);
      var links := [known.value] + WithoutLive(slice);
      assert links[1..] == WithoutLive(slice);
    }
  }

  /** Two live permanent links in a first list: when the front one is revoked, the lookup does not see the other. */
  lemma SecondPermanentLinkIsLost(peer: Peer)
    ensures var other, a, b := Link("o", false, false, 0, 0), Link("a", true, false, 0, 0), Link("b", true, false, 0, 0);
            var loaded := Loaded(Cache(map[], map[]), peer, [other, a, b], 3);
            var edited := Edited(loaded, peer, "a", a.(revoked := true));
            && !PeerInv(loaded, peer)
            && Lookup(SliceOf(edited, peer)) == None && Search(SliceOf(edited, peer).links) == Some(b)
  {
    var other, a, b := Link("o", false, false, 0, 0), Link("a", true, false, 0, 0), Link("b", true, false, 0, 0);
    NothingDropped([other, a, b]);
    var loaded := Loaded(Cache(map[], map[]), peer, [other, a, b], 3);
    assert Live(a) && Live(b) && !Live(other);
    ThreeLinks(other, a, b);
    assert loaded.slices[peer].links == [a, other, b];
    assert loaded.slices[peer].links[1..] == [other, b];
    assert b in [other, b];
    assert IndexOf([a, other, b], "a") == 0;
    assert [a, other, b][..0] + [a, other, b][1..] == [other, b];
    assert [other, b][1..] == [b];
  }

  lemma ThreeLinks(other: Link, a: Link, b: Link)
    requires !Live(other) && Live(a)
    ensures Fronted([other, a, b]) == [a, other, b]
  {
    var links := [other, a, b];
    assert links[1..] == [a, b];
    assert IndexOfLive([a, b]) == 0;
    assert IndexOfLive(links) == 1;
    assert [links[1]] + links[..1] + links[2..] == [a, other, b];
  }

  lemma {:induction false} NothingDropped(links: seq<Link>)
    ensures WithoutLink(links, None) == links
  {
    if links != [] {
      NothingDropped(links[1..]);
      assert links == [links[0]] + links[1..];
    }
  }

  /** The edited link, if it is then live and permanent, must be the front one and the main one; nothing else matters. */
  lemma EditKeepsInvIff(c: Cache, peer: Peer, key: string, link: Link)
    requires PeerInv(c, peer)
    ensures var s := SliceOf(c, peer);
            var j := IndexOf(s.links, key);
            PeerInv(Edited(c, peer, key, link), peer)
            <==> (j < |s.links| && Live(link) ==> j == 0 && peer in c.main && c.main[peer] == link.link)
  {
    hide OnlyFront;
    var s := SliceOf(c, peer);
    var j := IndexOf(s.links, key);
    if peer in c.slices && j < |s.links| {
      ErasedOnlyFront(s.links, j);
      AssignedOnlyFront(s.links, j, link);
      assert j == 0 ==> s.links[..j] + s.links[j + 1..] == s.links[1..];
      FrontGone(s.links);
    }
  }

  lemma ErasedOnlyFront(links: seq<Link>, j: nat)
    requires OnlyFront(links) && j < |links|
    ensures OnlyFront(links[..j] + links[j + 1..])
  {
    var erased := links[..j] + links[j + 1..];
    if j > 0 {
      assert erased[1..] == links[1..][..j - 1] + links[1..][j..];
    } else if erased != [] {
      assert erased == links[1..] && erased == [erased[0]] + erased[1..];
    }
  }

  lemma FrontGone(links: seq<Link>)
    requires OnlyFront(links) && links != []
    ensures links[1..] != [] ==> !Live(links[1..][0])
  {}

  lemma AssignedOnlyFront(links: seq<Link>, j: nat, link: Link)
    requires OnlyFront(links) && j < |links|
    ensures OnlyFront(links[j := link]) <==> j == 0 || !Live(link)
  {
    if j > 0 {
      assert links[j := link][1..] == links[1..][j - 1 := link];
      assert links[1..][j - 1 := link][j - 1] == link;
    } else {
      assert links[j := link][1..] == links[1..];
    }
  }

  lemma EditKeepsInv(c: Cache, peer: Peer, key: string, link: Link)
    requires PeerInv(c, peer) && Expected(c, Edit(peer, key, link))
    ensures PeerInv(Edited(c, peer, key, link), peer)
  {
    hide Edited;
    var s := SliceOf(c, peer);
    var j := IndexOf(s.links, key);
    EditKeepsInvIff(c, peer, key, link);
    if 0 < j < |s.links| {
      OnlyFrontAt(s.links, j);
    }
    assert j < |s.links| ==> s.links[j] in s.links;
  }

  lemma OnlyFrontAt(links: seq<Link>, j: nat)
    requires OnlyFront(links) && 0 < j < |links|
    ensures !Live(links[j])
  {
    assert links[1..][j - 1] in links[1..];
  }

  lemma PermanentSetKeepsInv(c: Cache, peer: Peer, link: Link)
    requires PeerInv(c, peer)
    ensures PeerInv(PermanentSet(c, peer, link), peer)
  {
    var was := SliceOf(c, peer).links;
    var links := PermanentSet(c, peer, link).slices[peer].links;
    if was != [] {
      assert was == [was[0]] + was[1..];
      assert links[1..] == was || links[1..] == was[1..];
    } else {
      assert links == [link];
    }
  }

  lemma {:induction false} ReplacedParts(links: seq<Link>, link: Link)
    ensures |Replaced(links, link)| == |links|
    ensures forall i | 0 <= i < |links| ::
              Replaced(links, link)[i] == if links[i].link == link.link then link else links[i]
  {
    if links != [] {
      ReplacedParts(links[1..], link);
    }
  }

  lemma UpdateKeepsInv(c: Cache, peer: Peer, link: Link)
    requires PeerInv(c, peer) && Expected(c, Update(peer, link))
    ensures PeerInv(Updated(c, peer, link), peer)
  {
    var was := SliceOf(c, peer).links;
    ReplacedParts(was, link);
    var links := Replaced(was, link);
    if peer in c.slices && was != [] {
      assert was[0] in was;
      forall l | l in links[1..]
        ensures !Live(l)
      {
        var i :| 0 <= i < |links[1..]| && links[1..][i] == l;
        assert was[1..][i] in was[1..] && was[i + 1] in was && links[i + 1] == l;
      }
    }
  }

  lemma StepKeepsPeerInv(c: Cache, e: Event)
    requires PeerInv(c, e.peer) && Expected(c, e)
    ensures PeerInv(Step(c, e), e.peer)
  {
    hide Prepended, Edited, Loaded, PermanentSet, Updated;
    match e
    case Prepend(peer, link) => PrependKeepsInv(c, peer, link);
    case Edit(peer, key, link) => EditKeepsInv(c, peer, key, link);
    case Load(peer, invites, count) => LoadKeepsInvIff(c, peer, invites, count);
    case SetPermanent(peer, link) => PermanentSetKeepsInv(c, peer, link);
    case ClearPermanent(peer) =>
      if Lookup(SliceOf(c, peer)).Some? {
        var rest := c.slices[peer].links[1..];
        if rest != [] {
          assert rest == [rest[0]] + rest[1..];
        }
      }
    case Update(peer, link) => UpdateKeepsInv(c, peer, link);
    case Drop(peer) =>
  }

  lemma StepKeepsOthers(c: Cache, e: Event, peer: Peer)
    requires peer != e.peer
    ensures peer in Step(c, e).slices <==> peer in c.slices
    ensures peer in c.slices ==> Step(c, e).slices[peer] == c.slices[peer]
    ensures peer in Step(c, e).main <==> peer in c.main
    ensures peer in c.main ==> Step(c, e).main[peer] == c.main[peer]
  {
    hide IndexOf, Fronted, Replaced, WithoutLink, WithoutLive;
  }

  lemma StepKeepsInv(c: Cache, e: Event)
    requires Inv(c) && Expected(c, e)
    ensures Inv(Step(c, e))
  {
    hide Step, Expected;
    assert PeerInv(c, e.peer);
    StepKeepsPeerInv(c, e);
    forall peer | peer in Step(c, e).slices
      ensures PeerInv(Step(c, e), peer)
    {
      if peer != e.peer {
        StepKeepsOthers(c, e, peer);
      }
    }
  }

  function Run(c: Cache, run: seq<Event>): Cache
    decreases |run|
  {
    if run == [] then c else Run(Step(c, run[0]), run[1..])
  }

  ghost predicate AllExpected(c: Cache, run: seq<Event>)
    decreases |run|
  {
    run == [] || (Expected(c, run[0]) && AllExpected(Step(c, run[0]), run[1..]))
  }

  lemma {:induction false} RunKeepsInv(c: Cache, run: seq<Event>)
    requires Inv(c) && AllExpected(c, run)
    ensures Inv(Run(c, run))
    decreases |run|
  {
    hide Inv, Step, Expected;
    if run != [] {
      StepKeepsInv(c, run[0]);
      RunKeepsInv(Step(c, run[0]), run[1..]);
    }
  }

  /** At any time: the lookup finds what a full search would, and the peer's main link is the link found. */
  lemma LookupIsRight(run: seq<Event>, peer: Peer)
    requires AllExpected(Cache(map[], map[]), run)
    ensures var c := Run(Cache(map[], map[]), run);
            && Lookup(SliceOf(c, peer)) == Search(SliceOf(c, peer).links)
            && (Search(SliceOf(c, peer).links).Some?
                ==> peer in c.main && c.main[peer] == Search(SliceOf(c, peer).links).value.link)
  {
    hide Run, AllExpected, Search, OnlyFront;
    var start, c := Cache(map[], map[]), Run(Cache(map[], map[]), run);
    RunKeepsInv(start, run);
    if peer in c.slices {
      assert PeerInv(c, peer);
      LookupIsSearch(c.slices[peer].links, c.slices[peer].count);
    } else {
      LookupIsSearch([], 0) by {
        assert OnlyFront([]) by { EmptyIsOnlyFront(); }
      }
    }
  }

  lemma EmptyIsOnlyFront()
    ensures OnlyFront([])
  {}

  // ----- Counts -----

  /** The count covers the links that are cached. */
  ghost predicate CountOk(c: Cache, peer: Peer) { peer in c.slices ==> c.slices[peer].count >= |c.slices[peer].links| }

  /** A list from the server is not longer than the count that comes with it. */
  ghost predicate ListCounted(e: Event) { e.Load? ==> |e.invites| <= e.count }

  lemma {:induction false} ShorterLists(links: seq<Link>, known: Option<Link>)
    ensures |WithoutLink(links, known)| <= |links| && |WithoutLive(links)| <= |links|
  {
    if links != [] {
      ShorterLists(links[1..], known);
    }
  }

  /** Every operation but `setMyPermanent` keeps the count at least as large as the number of cached links. */
  lemma CountIsKept(c: Cache, e: Event)
    requires CountOk(c, e.peer) && ListCounted(e) && !e.SetPermanent?
    ensures CountOk(Step(c, e), e.peer)
  {
    hide IndexOf, IndexOfLive;
    match e
    case Load(peer, invites, count) => ShorterLists(invites, Lookup(SliceOf(c, peer)));
    case Update(peer, link) => ReplacedParts(SliceOf(c, peer).links, link);
    case _ =>
  }

  /**
   * `setMyPermanent` inserts a link without counting it: it keeps the count right exactly if it only refreshes the link
   * it has, or if the count had room for one more link than the cache holds.
   */
  lemma SetPermanentCountsIff(c: Cache, peer: Peer, link: Link)
    requires CountOk(c, peer)
    ensures var s, known := SliceOf(c, peer), Lookup(SliceOf(c, peer));
            CountOk(PermanentSet(c, peer, link), peer)
            <==> (known.Some? && known.value.link == link.link) || s.count > |s.links|
  {}

  /** Set in an empty cache, the link is there and not counted. */
  lemma PermanentLinkIsNotCounted(peer: Peer, link: Link)
    ensures var c := PermanentSet(Cache(map[], map[]), peer, link);
            SliceOf(c, peer) == Links([link], 0) && CountOk(Cache(map[], map[]), peer) && !CountOk(c, peer)
  {}

  // ----- What each operation does to the slice -----

  /** How many of the links that the server counts are not cached */
  function Uncached(s: Links): int { s.count - |s.links| }

  /** The links without the live permanent one at the front */
  function Others(s: Links): seq<Link> {
    if s.links != [] && s.links[0].permanent && !s.links[0].revoked then s.links[1..] else s.links
  }

  function Seen(c: Cache, peer: Peer): Links { if peer in c.slices then c.slices[peer] else Links([], 0) }

  /** The front of the slice is a live permanent link. */
  predicate HasFront(s: Links) { s.links != [] && s.links[0].permanent && !s.links[0].revoked }

  /**
   * A new link is counted. A permanent one takes the front, and the place of the live permanent one there, which is not
   * counted any more; another one comes behind that, and all others keep their order.
   */
  lemma PrependedIs(c: Cache, peer: Peer, link: Link)
    ensures var was, now := Seen(c, peer), Seen(Prepended(c, peer, link), peer);
            && peer in Prepended(c, peer, link).slices
            && now.links == (if link.permanent then [link] + Others(was)
                             else if HasFront(was) then [was.links[0]] + ([link] + Others(was))
                             else [link] + was.links)
            && now.count == was.count + (if link.permanent && HasFront(was) && was.count > 0 then 0 else 1)
            && (was.count > 0 ==> Uncached(now) == Uncached(was))
            && Prepended(c, peer, link).main == (if link.permanent then c.main[peer := link.link] else c.main)
  {
    var was := Seen(c, peer);
    if HasFront(was) && !link.permanent {
      assert [was.links[0], link] + was.links[1..] == [was.links[0]] + ([link] + was.links[1..]);
    }
  }

  /** An edit changes the first link of its string alone; a newly revoked one goes, and is not counted any more. */
  lemma EditedIs(c: Cache, peer: Peer, key: string, link: Link, j: nat)
    requires peer in c.slices && j < |c.slices[peer].links| && c.slices[peer].links[j].link == key
    requires forall i | 0 <= i < j :: c.slices[peer].links[i].link != key
    ensures var was, now := c.slices[peer], Seen(Edited(c, peer, key, link), peer);
            && (link.revoked && !was.links[j].revoked ==>
                  && |now.links| == |was.links| - 1
                  && (forall i | 0 <= i < j :: now.links[i] == was.links[i])
                  && (forall i | j < i < |was.links| :: now.links[i - 1] == was.links[i])
                  && (was.count > 0 ==> Uncached(now) == Uncached(was))
                  && (was.count <= 0 ==> now.count == was.count))
            && (!link.revoked || was.links[j].revoked ==>
                  && |now.links| == |was.links| && now.count == was.count && now.links[j] == link
                  && (forall i | 0 <= i < |was.links| && i != j :: now.links[i] == was.links[i]))
            && Edited(c, peer, key, link).main == c.main
  {
    FirstOf(c.slices[peer].links, key, j);
  }

  lemma {:induction false} FirstOf(links: seq<Link>, key: string, j: nat)
    requires j < |links| && links[j].link == key && forall i | 0 <= i < j :: links[i].link != key
    ensures IndexOf(links, key) == j
  {
    if j > 0 {
      FirstOf(links[1..], key, j - 1);
    }
  }

  /** An edit of a link that is not cached changes nothing. */
  lemma EditedElsewhere(c: Cache, peer: Peer, key: string, link: Link)
    requires peer !in c.slices || forall l | l in c.slices[peer].links :: l.link != key
    ensures Edited(c, peer, key, link) == c
  {}

  /** The first list keeps the given links and their count. */
  lemma FirstListKeeps(c: Cache, peer: Peer, invites: seq<Link>, count: int)
    requires !HasFront(Seen(c, peer))
    ensures var now := Seen(Loaded(c, peer, invites, count), peer);
            peer in Loaded(c, peer, invites, count).slices && now.count == count && multiset(now.links) == multiset(invites)
  {
    hide Fronted;
    NothingDropped(invites);
    FrontedKeeps(invites);
  }

  lemma FrontedKeeps(links: seq<Link>)
    ensures multiset(Fronted(links)) == multiset(links)
  {
    hide IndexOfLive;
    var i := IndexOfLive(links);
    if i < |links| {
      var before, behind := links[..i], links[i + 1..];
      assert links == before + [links[i]] + behind;
      assert multiset([links[i]] + before + behind) == multiset(before + [links[i]] + behind);
    }
  }

  /** Its first live permanent link, at `i`, comes to the front, and is the main one then. */
  lemma FirstListIs(c: Cache, peer: Peer, invites: seq<Link>, count: int, i: nat)
    requires !HasFront(Seen(c, peer))
    requires i <= |invites| && (i < |invites| ==> invites[i].permanent && !invites[i].revoked)
    requires forall k | 0 <= k < i :: !invites[k].permanent || invites[k].revoked
    ensures var loaded := Loaded(c, peer, invites, count);
            if i < |invites| then
              && Seen(loaded, peer).links == [invites[i]] + (invites[..i] + invites[i + 1..])
              && loaded.main == c.main[peer := invites[i].link]
            else Seen(loaded, peer).links == invites && loaded.main == c.main
  {
    NothingDropped(invites);
    FirstLive(invites, i);
    hide IndexOfLive;
    if i < |invites| {
      assert Fronted(invites) == [invites[i]] + (invites[..i] + invites[i + 1..]);
    } else if invites != [] {
      assert !Live(invites[0]);
    }
  }

  lemma {:induction false} FirstLive(links: seq<Link>, i: nat)
    requires i <= |links| && (i < |links| ==> links[i].permanent && !links[i].revoked)
    requires forall k | 0 <= k < i :: !links[k].permanent || links[k].revoked
    ensures IndexOfLive(links) == i
  {
    if i > 0 {
      FirstLive(links[1..], i - 1);
    }
  }

  /** A later list: the known permanent link stays in front, and the others are the ones without it and live ones. */
  lemma LaterListIs(c: Cache, peer: Peer, invites: seq<Link>, count: int)
    requires HasFront(Seen(c, peer))
    ensures var known, loaded := Seen(c, peer).links[0], Loaded(c, peer, invites, count);
            var now := Seen(loaded, peer);
            && now.links != [] && now.links[0] == known && loaded.main == c.main
            && (forall l: Link :: l in now.links[1..]
                  <==> l in invites && l.link != known.link && !(l.permanent && !l.revoked))
            && now.count >= count && now.count >= |now.links| && (now.count == count || now.count == |now.links|)
  {
    var known := Seen(c, peer).links[0];
    var slice := WithoutLink(invites, Some(known));
    assert ([known] + WithoutLive(slice))[1..] == WithoutLive(slice);
    forall l: Link
      ensures l in WithoutLive(slice) <==> l in invites && l.link != known.link && !(l.permanent && !l.revoked)
    {
      WithoutLinkMembers(invites, known, l);
      WithoutLiveMembers(slice, l);
    }
  }

  lemma {:induction false} WithoutLinkMembers(links: seq<Link>, known: Link, l: Link)
    ensures l in WithoutLink(links, Some(known)) <==> l in links && l.link != known.link
  {
    if links != [] {
      WithoutLinkMembers(links[1..], known, l);
      assert links == [links[0]] + links[1..];
    }
  }

  lemma {:induction false} WithoutLiveMembers(links: seq<Link>, l: Link)
    ensures l in WithoutLive(links) <==> l in links && !(l.permanent && !l.revoked)
  {
    if links != [] {
      WithoutLiveMembers(links[1..], l);
      assert links == [links[0]] + links[1..];
    }
  }

  /** They keep their order, wherever the list is cut. */
  lemma {:induction false} LaterListInOrder(a: seq<Link>, b: seq<Link>, known: Link)
    ensures WithoutLive(WithoutLink(a + b, Some(known)))
         == WithoutLive(WithoutLink(a, Some(known))) + WithoutLive(WithoutLink(b, Some(known)))
  {
    hide WithoutLive, WithoutLink;
    if a == [] {
      assert [] + b == b;
      NothingLeft(known);
    } else {
      var first, rest := a[0], a[1..];
      LaterListInOrder(rest, b, known);
      assert a == [first] + rest && a + b == [first] + (rest + b);
      WithoutLinkOf(first, rest, known);
      WithoutLinkOf(first, rest + b, known);
      if first.link != known.link {
        WithoutLiveOf(first, WithoutLink(rest, Some(known)));
        WithoutLiveOf(first, WithoutLink(rest + b, Some(known)));
      }
    }
  }

  lemma NothingLeft(known: Link)
    ensures WithoutLink([], Some(known)) == [] && WithoutLive([]) == []
  {}

  lemma WithoutLinkOf(l: Link, rest: seq<Link>, known: Link)
    ensures WithoutLink([l] + rest, Some(known))
         == if l.link == known.link then WithoutLink(rest, Some(known)) else [l] + WithoutLink(rest, Some(known))
  {
    assert ([l] + rest)[1..] == rest;
  }

  lemma WithoutLiveOf(l: Link, rest: seq<Link>)
    ensures WithoutLive([l] + rest) == (if l.permanent && !l.revoked then [] else [l]) + WithoutLive(rest)
  {
    assert ([l] + rest)[1..] == rest;
  }

  /**
   * Setting the permanent link: the same link only gets the new usage, and another one takes the front from the old one,
   * without being counted. It is the main link then.
   */
  lemma PermanentSetIs(c: Cache, peer: Peer, link: Link)
    ensures var was, after := Seen(c, peer), PermanentSet(c, peer, link);
            var now := Seen(after, peer);
            && peer in after.slices && now.links != []
            && (if HasFront(was) && was.links[0].link == link.link then
                  && now.links == [was.links[0].(usage := link.usage)] + was.links[1..]
                  && now.count == was.count && after.main == c.main
                else
                  && now.links == [link] + Others(was) && after.main == c.main[peer := link.link]
                  && now.count == (if HasFront(was) && was.count > 0 then was.count - 1 else was.count)
                  && (!HasFront(was) || was.count > 0 ==> Uncached(now) == Uncached(was) - 1))
  {
    var was := Seen(c, peer);
    if HasFront(was) && was.links[0].link == link.link {
      assert was.links[0 := was.links[0].(usage := link.usage)]
          == [was.links[0].(usage := link.usage)] + was.links[1..];
    }
  }

  /** Clearing takes the front away and out of the count, and leaves no main link. */
  lemma PermanentClearedIs(c: Cache, peer: Peer)
    ensures var was, after := Seen(c, peer), PermanentCleared(c, peer);
            if HasFront(was) then
              && Seen(after, peer).links == Others(was) && after.main == c.main[peer := ""]
              && (was.count > 0 ==> Uncached(Seen(after, peer)) == Uncached(was))
              && (was.count <= 0 ==> Seen(after, peer).count == was.count)
            else after == c
  {}

  /** An update replaces every link of its string, and nothing else. */
  lemma UpdatedIs(c: Cache, peer: Peer, link: Link)
    ensures var was, after := Seen(c, peer), Updated(c, peer, link);
            var now := Seen(after, peer);
            && |now.links| == |was.links| && now.count == was.count && after.main == c.main
            && (forall i | 0 <= i < |was.links| ::
                  now.links[i] == if was.links[i].link == link.link then link else was.links[i])
  {
    ReplacedParts(Seen(c, peer).links, link);
  }

  lemma DroppedIs(c: Cache, peer: Peer)
    ensures peer !in Dropped(c, peer).slices && Dropped(c, peer).main == c.main
    ensures forall other | other != peer && other in c.slices ::
              other in Dropped(c, peer).slices && Dropped(c, peer).slices[other] == c.slices[other]
  {}
}
