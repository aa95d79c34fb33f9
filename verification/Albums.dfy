/** `ApiWrap`: an album is put together from uploads and cancellations, and sent when all its items are there. */
module Albums {
  import opened Options

  type Group = nat
  type MessageId = nat

  /** What is sent of an item */
  datatype Media = Media(upload: nat, randomId: nat, caption: string)

  /** `SendingAlbum::Item`; the id is zero until the file was loaded and its message added. */
  datatype Item = Item(id: MessageId, media: Option<Media>)

  datatype Album = Album(items: seq<Item>, price: int, sent: bool)

  /** A local message that is being sent */
  datatype Message = Message(group: Group, text: string)

  datatype Way = Single | Multi | Paid

  datatype Submission = Submission(group: Group, way: Way, medias: seq<Media>)

  /**
   * The albums, the local messages, the uploads and the sends in flight, the groups used so far, what was submitted,
   * the albums that lost an item whose file could not be loaded, the messages whose upload failed, and whether an
   * assertion failed.
   */
  datatype Sending = Sending(
    albums: map<Group, Album>, messages: map<MessageId, Message>, uploads: set<MessageId>, lastId: MessageId,
    used: set<Group>, submitted: seq<Submission>, stalled: set<Group>, lost: set<MessageId>, crashed: bool)

  const START := Sending(map[], map[], {}, 0, {}, [], {}, {}, false)

  // ----- Items -----

  function IndexOf(items: seq<Item>, id: MessageId): (i: nat)
    ensures i <= |items| && (i < |items| ==> items[i].id == id)
    ensures forall k | 0 <= k < i :: items[k].id != id
  {
    if items == [] || items[0].id == id then 0 else 1 + IndexOf(items[1..], id)
  }

  predicate Complete(items: seq<Item>) { forall item | item in items :: item.media.Some? }

  function Medias(items: seq<Item>): (medias: seq<Media>)
    requires Complete(items)
    ensures |medias| == |items| && forall i | 0 <= i < |items| :: items[i].media == Some(medias[i])
  {
    seq(|items|, i requires 0 <= i < |items| => items[i].media.value)
  }

  /** Some item has a message that is there. */
  predicate HasSample(items: seq<Item>, messages: map<MessageId, Message>) {
    exists item :: item in items && item.id in messages
  }

  // ----- Sending -----

  function Submit(s: Sending, group: Group, way: Way): Sending
    requires group in s.albums && Complete(s.albums[group].items)
  {
    var album := s.albums[group];
    s.(submitted := s.submitted + [Submission(group, way, Medias(album.items))],
       albums := if way == Single then s.albums - {group} else s.albums[group := album.(sent := true)])
  }

  /** `sendAlbumIfReady` */
  function SendIfReady(s: Sending, group: Group): Sending
    requires group in s.albums
  {
    var album := s.albums[group];
    if album.sent then s
    else if album.items == [] then s.(albums := s.albums - {group})
    else if !Complete(album.items) then s
    else if !HasSample(album.items, s.messages) then s.(albums := s.albums - {group})
    else if album.price > 0 then Submit(s, group, Paid)
    else if |album.items| < 2 then Submit(s, group, Single)
    else Submit(s, group, Multi)
  }

  // ----- Events -----

  /** A new album for the files to send */
  function Started(s: Sending, group: Group, files: nat, price: int): Sending {
    s.(albums := s.albums[group := Album(seq(files, _ => Item(0, None)), price, false)], used := s.used + {group})
  }

  /** `SendConfirmedFile`: a loaded file gets its message, and its upload starts. */
  function Loaded(s: Sending, group: Group, i: nat, text: string): Sending
    requires group in s.albums && i < |s.albums[group].items|
  {
    var id, album := s.lastId + 1, s.albums[group];
    s.(lastId := id, messages := s.messages[id := Message(group, text)], uploads := s.uploads + {id},
       albums := s.albums[group := album.(items := album.items[i := Item(id, None)])])
  }

  /** `FileLoadTask::removeFromAlbum`: nobody asks then whether the album is ready. */
  function LoadFailed(s: Sending, group: Group, i: nat): Sending
    requires group in s.albums && i < |s.albums[group].items|
  {
    var album := s.albums[group];
    s.(albums := s.albums[group := album.(items := album.items[..i] + album.items[i + 1..])],
       stalled := s.stalled + {group})
  }

  /** The upload of the file, or of its media, fails, or brings media of another kind: nothing is done about it. */
  function UploadLost(s: Sending, id: MessageId): Sending { s.(uploads := s.uploads - {id}, lost := s.lost + {id}) }

  /** `sendAlbumWithUploaded`, for a message that is still there */
  function Uploaded(s: Sending, id: MessageId, upload: nat, randomId: nat): Sending {
    var landed := s.(uploads := s.uploads - {id});
    if id !in s.messages then landed
    else
      var group := s.messages[id].group;
      if group !in s.albums then s.(crashed := true)
      else
        var album := s.albums[group];
        var i := IndexOf(album.items, id);
        if i == |album.items| || album.items[i].media.Some? then s.(crashed := true)
        else
          var media := Media(upload, randomId, s.messages[id].text);
          SendIfReady(landed.(albums := s.albums[group := album.(items := album.items[i := Item(id, Some(media))])],
                              stalled := s.stalled - {group}),
                      group)
  }

  function JoinedText(first: string, moved: string): string {
    if first == "" then moved else first + "\n" + moved
  }

  /** The items behind a removed first one: the new first one takes over its caption. */
  function Recaptioned(items: seq<Item>, text: string): seq<Item>
    requires items != []
  {
    match items[0].media
    case None => items
    case Some(media) => items[0 := Item(items[0].id, Some(media.(caption := text)))]
  }

  /** `removeItem` of the item at `i` */
  function RemoveItem(s: Sending, group: Group, i: nat, text: string): Sending
    requires group in s.albums && i < |s.albums[group].items|
  {
    var album := s.albums[group];
    var rest := album.items[..i] + album.items[i + 1..];
    if i == 0 && rest != [] && rest[0].id in s.messages then
      var first := s.messages[rest[0].id];
      var joined := JoinedText(first.text, text);
      s.(messages := s.messages[rest[0].id := first.(text := joined)],
         albums := s.albums[group := album.(items := Recaptioned(rest, joined))])
    else s.(albums := s.albums[group := album.(items := rest)])
  }

  /** `sendAlbumWithCancelled`, and then the message is gone */
  function Cancelled(s: Sending, id: MessageId): Sending
    requires id in s.messages
  {
    var group, text := s.messages[id].group, s.messages[id].text;
    if group !in s.albums then s.(messages := s.messages - {id})
    else
      var i := IndexOf(s.albums[group].items, id);
      if i == |s.albums[group].items| then s.(crashed := true)
      else
        var removed := RemoveItem(s.(stalled := s.stalled - {group}), group, i, text);
        var sent := SendIfReady(removed, group);
        sent.(messages := sent.messages - {id})
  }

  /** The answer or the failure of a send takes the album out; of a paid one only the answer does, with the messages. */
  function Answered(s: Sending, group: Group): Sending { s.(albums := s.albums - {group}) }

  function PaidAnswered(s: Sending, group: Group): Sending {
    if group !in s.albums then s
    else
      s.(albums := s.albums - {group}, messages := s.messages - (set item | item in s.albums[group].items :: item.id))
  }

  /** A sent message got its place in the history. */
  function Settled(s: Sending, id: MessageId): Sending { s.(messages := s.messages - {id}) }

  datatype Event =
    | Start(group: Group, files: nat, price: int)
    | Load(group: Group, i: nat, text: string)
    | FailToLoad(group: Group, i: nat)
    | Upload(id: MessageId, upload: nat, randomId: nat)
    | UploadFailed(id: MessageId)
    | Cancel(id: MessageId)
    | Answer(group: Group)
    | PaidAnswer(group: Group)
    | Settle(id: MessageId)

  ghost predicate WasSubmitted(submitted: seq<Submission>, group: Group) {
    exists sub :: sub in submitted && sub.group == group
  }

  /** Every group is a new one; files are loaded once, uploads answered once, and only what was sent is answered. */
  ghost predicate Enabled(s: Sending, e: Event) {
    match e
    case Start(group, files, _) => group !in s.used && files > 0
    case Load(group, i, _) => group in s.albums && i < |s.albums[group].items| && s.albums[group].items[i] == Item(0, None)
    case FailToLoad(group, i) =>
      group in s.albums && i < |s.albums[group].items| && s.albums[group].items[i] == Item(0, None)
    case Upload(id, _, _) => id in s.uploads
    case UploadFailed(id) => id in s.uploads
    case Cancel(id) => id in s.messages
    case Answer(group) => WasSubmitted(s.submitted, group)
    case PaidAnswer(group) => WasSubmitted(s.submitted, group)
    case Settle(id) => id in s.messages && WasSubmitted(s.submitted, s.messages[id].group)
  }

  ghost function Step(s: Sending, e: Event): Sending
    requires Enabled(s, e)
  {
    match e
    case Start(group, files, price) => Started(s, group, files, price)
    case Load(group, i, text) => Loaded(s, group, i, text)
    case FailToLoad(group, i) => LoadFailed(s, group, i)
    case Upload(id, upload, randomId) => Uploaded(s, id, upload, randomId)
    case UploadFailed(id) => UploadLost(s, id)
    case Cancel(id) => Cancelled(s, id)
    case Answer(group) => Answered(s, group)
    case PaidAnswer(group) => PaidAnswered(s, group)
    case Settle(id) => Settled(s, id)
  }

  // ----- The invariant -----

  predicate DistinctIds(items: seq<Item>) {
    forall i, j | 0 <= i < j < |items| && items[i].id == items[j].id :: items[i].id == 0
  }

  /**
   * An item of an unsent album: not loaded yet, or with a message of the album that is uploading or whose upload failed,
   * or filled in with its text
   */
  predicate ItemOk(s: Sending, group: Group, item: Item) {
    if item.id == 0 then item.media.None?
    else
      && item.id in s.messages && s.messages[item.id].group == group
      && match item.media
         case None => item.id in s.uploads || item.id in s.lost
         case Some(media) => item.id !in s.uploads && media.caption == s.messages[item.id].text
  }

  ghost predicate AlbumOk(s: Sending, group: Group) {
    group in s.albums ==>
      && group in s.used && DistinctIds(s.albums[group].items)
      && (s.albums[group].sent <==> WasSubmitted(s.submitted, group))
      && (forall item | item in s.albums[group].items && item.id != 0 :: item.id <= s.lastId)
      && (forall item | item in s.albums[group].items && item.id in s.messages :: s.messages[item.id].group == group)
      && (if s.albums[group].sent then Complete(s.albums[group].items)
          else forall item | item in s.albums[group].items :: ItemOk(s, group, item))
  }

  /** An unsent album lacks an item, unless one of its files could not be loaded. */
  ghost predicate Waiting(s: Sending, group: Group) {
    group in s.albums && !s.albums[group].sent && group !in s.stalled
    ==> s.albums[group].items != [] && !Complete(s.albums[group].items)
  }

  ghost predicate HasItem(items: seq<Item>, id: MessageId) { exists item :: item in items && item.id == id }

  /** A message belongs to its album as long as that is there; while it is uploading, the album waits for it. */
  ghost predicate MessageOk(s: Sending, id: MessageId) {
    && (id in s.uploads || id in s.lost ==> 0 < id <= s.lastId)
    && !(id in s.uploads && id in s.lost)
    && (id in s.messages ==>
          var group := s.messages[id].group;
          && 0 < id <= s.lastId && group in s.used
          && (group in s.albums ==> HasItem(s.albums[group].items, id))
          && (id in s.uploads ==> group in s.albums && !s.albums[group].sent))
  }

  /** No group is submitted twice. */
  ghost predicate SubmittedOk(s: Sending) {
    && (forall sub | sub in s.submitted :: sub.group in s.used && sub.medias != [])
    && (forall i, j | 0 <= i < j < |s.submitted| :: s.submitted[i].group != s.submitted[j].group)
  }

  /** All but the readiness of the albums */
  ghost predicate Parts(s: Sending) {
    (forall group :: AlbumOk(s, group)) && (forall id :: MessageOk(s, id)) && SubmittedOk(s) && !s.crashed
  }

  ghost predicate Inv(s: Sending) { Parts(s) && forall group :: Waiting(s, group) }

  // ----- Sending keeps it -----

  lemma NowSubmitted(submitted: seq<Submission>, sub: Submission)
    ensures forall group :: WasSubmitted(submitted + [sub], group) <==> WasSubmitted(submitted, group) || group == sub.group
  {
    assert sub in submitted + [sub];
    assert forall x | x in submitted :: x in submitted + [sub];
  }

  lemma SubmittedGrows(s: Sending, sub: Submission)
    requires SubmittedOk(s) && !WasSubmitted(s.submitted, sub.group) && sub.group in s.used && sub.medias != []
    ensures SubmittedOk(s.(submitted := s.submitted + [sub]))
  {
    forall i | 0 <= i < |s.submitted|
      ensures s.submitted[i].group != sub.group
    {
      assert s.submitted[i] in s.submitted;
    }
  }

  lemma SubmitKeepsParts(s: Sending, group: Group, way: Way)
    requires Parts(s) && group in s.albums && !s.albums[group].sent
    requires s.albums[group].items != [] && Complete(s.albums[group].items)
    ensures Parts(Submit(s, group, way))
    ensures forall g :: g != group && Waiting(s, g) ==> Waiting(Submit(s, group, way), g)
    ensures Waiting(Submit(s, group, way), group)
  {
    hide WasSubmitted;
    var t := Submit(s, group, way);
    var sub := Submission(group, way, Medias(s.albums[group].items));
    assert AlbumOk(s, group);
    NowSubmitted(s.submitted, sub);
    SubmittedGrows(s, sub);
    forall g
      ensures AlbumOk(t, g)
    {
      assert AlbumOk(s, g);
    }
    forall id
      ensures MessageOk(t, id)
    {
      assert MessageOk(s, id);
    }
  }

  /** Dropping an album nobody waits for */
  lemma DropKeepsParts(s: Sending, group: Group)
    requires Parts(s) && group in s.albums
    requires s.albums[group].sent || s.albums[group].items == []
    ensures Parts(s.(albums := s.albums - {group}))
    ensures forall g :: g != group && Waiting(s, g) ==> Waiting(s.(albums := s.albums - {group}), g)
    ensures Waiting(s.(albums := s.albums - {group}), group)
  {
    hide WasSubmitted;
    var t := s.(albums := s.albums - {group});
    assert AlbumOk(s, group);
    forall g
      ensures AlbumOk(t, g)
    {
      assert AlbumOk(s, g);
    }
    forall id
      ensures MessageOk(t, id)
    {
      assert MessageOk(s, id);
    }
  }

  /** The first item of a complete album has its message. */
  lemma CompleteHasSample(s: Sending, group: Group)
    requires Parts(s) && group in s.albums && !s.albums[group].sent
    requires s.albums[group].items != [] && Complete(s.albums[group].items)
    ensures HasSample(s.albums[group].items, s.messages)
  {
    hide WasSubmitted;
    assert AlbumOk(s, group);
    var item := s.albums[group].items[0];
    assert item in s.albums[group].items && ItemOk(s, group, item);
  }

  lemma SendIfReadyKeepsInv(s: Sending, group: Group)
    requires Parts(s) && group in s.albums && group !in s.stalled
    requires forall g | g != group :: Waiting(s, g)
    ensures Inv(SendIfReady(s, group))
  {
    hide Parts, Submit, HasSample;
    var album := s.albums[group];
    if album.sent {
    } else if album.items == [] {
      DropKeepsParts(s, group);
    } else if Complete(album.items) {
      CompleteHasSample(s, group);
      SubmitKeepsParts(s, group, if album.price > 0 then Paid else if |album.items| < 2 then Single else Multi);
    }
  }

  // ----- Files -----

  lemma StartedKeepsInv(s: Sending, group: Group, files: nat, price: int)
    requires Inv(s) && group !in s.used && files > 0
    ensures Inv(Started(s, group, files, price))
  {
    hide WasSubmitted;
    var t := Started(s, group, files, price);
    NotUsedNotSubmitted(s, group);
    assert AlbumOk(s, group) && MessageOk(s, 0);
    assert t.albums[group].items[0] in t.albums[group].items;
    forall g
      ensures AlbumOk(t, g) && Waiting(t, g)
    {
      assert AlbumOk(s, g) && Waiting(s, g);
    }
    forall id
      ensures MessageOk(t, id)
    {
      assert MessageOk(s, id);
    }
  }

  lemma NotUsedNotSubmitted(s: Sending, group: Group)
    requires SubmittedOk(s) && group !in s.used
    ensures !WasSubmitted(s.submitted, group)
  {}

  /** The items with one loaded: the others are the old ones. */
  lemma LoadedItems(s: Sending, group: Group, i: nat, text: string)
    requires Inv(s) && group in s.albums && i < |s.albums[group].items| && s.albums[group].items[i] == Item(0, None)
    ensures var was, now := s.albums[group].items, Loaded(s, group, i, text).albums[group].items;
            && (forall item | item in now :: item in was || item == Item(s.lastId + 1, None))
            && Item(s.lastId + 1, None) in now && !s.albums[group].sent
            && (forall item | item in was && item.id != 0 :: item in now)
            && (forall item | item in was :: item.id <= s.lastId)
            && DistinctIds(now)
  {
    hide WasSubmitted, MessageOk;
    var was, now := s.albums[group].items, Loaded(s, group, i, text).albums[group].items;
    assert AlbumOk(s, group);
    assert was[i] in was && now[i] in now;
    assert forall k | 0 <= k < |was| && k != i :: now[k] == was[k] && was[k] in was && now[k] in now;
  }

  lemma LoadedKeepsInv(s: Sending, group: Group, i: nat, text: string)
    requires Inv(s) && group in s.albums && i < |s.albums[group].items| && s.albums[group].items[i] == Item(0, None)
    ensures Inv(Loaded(s, group, i, text))
  {
    hide WasSubmitted, DistinctIds;
    var t, id := Loaded(s, group, i, text), s.lastId + 1;
    var was, now := s.albums[group].items, t.albums[group].items;
    assert AlbumOk(s, group) && Waiting(s, group) && MessageOk(s, id);
    LoadedItems(s, group, i, text);
    forall g
      ensures AlbumOk(t, g) && Waiting(t, g)
    {
      assert AlbumOk(s, g) && Waiting(s, g);
    }
    forall m
      ensures MessageOk(t, m)
    {
      assert MessageOk(s, m);
      if m in s.messages && s.messages[m].group == group {
        var item :| item in was && item.id == m;
        assert item in now;
      }
    }
  }

  lemma LoadFailedKeepsInv(s: Sending, group: Group, i: nat)
    requires Inv(s) && group in s.albums && i < |s.albums[group].items| && s.albums[group].items[i] == Item(0, None)
    ensures Inv(LoadFailed(s, group, i))
  {
    hide WasSubmitted;
    var t := LoadFailed(s, group, i);
    var was, now := s.albums[group].items, t.albums[group].items;
    assert AlbumOk(s, group);
    assert was[i] in was;
    Without(was, i);
    forall g
      ensures AlbumOk(t, g) && Waiting(t, g)
    {
      assert AlbumOk(s, g) && Waiting(s, g);
    }
    forall m
      ensures MessageOk(t, m)
    {
      assert MessageOk(s, m);
    }
  }

  /** What removing an item leaves */
  lemma Without(items: seq<Item>, i: nat)
    requires i < |items| && DistinctIds(items)
    ensures var rest := items[..i] + items[i + 1..];
            && DistinctIds(rest)
            && (forall item | item in rest :: item in items)
            && (forall id | id != items[i].id && HasItem(items, id) :: HasItem(rest, id))
            && (items[i].id != 0 ==> !HasItem(rest, items[i].id))
  {
    var rest := items[..i] + items[i + 1..];
    assert forall k | 0 <= k < |rest| :: rest[k] == items[if k < i then k else k + 1];
    forall id | id != items[i].id && HasItem(items, id)
      ensures HasItem(rest, id)
    {
      var item :| item in items && item.id == id;
      assert items == items[..i] + [items[i]] + items[i + 1..];
      assert item in rest;
    }
  }

  // ----- Uploads -----

  /** The message of a pending upload has its album, not sent, with its item not filled in: no assertion fails. */
  lemma UploadFindsItem(s: Sending, id: MessageId)
    requires Inv(s) && id in s.uploads && id in s.messages
    ensures var group := s.messages[id].group;
            && group in s.albums && !s.albums[group].sent
            && IndexOf(s.albums[group].items, id) < |s.albums[group].items|
            && s.albums[group].items[IndexOf(s.albums[group].items, id)].media == None
  {
    hide WasSubmitted;
    var group := s.messages[id].group;
    assert MessageOk(s, id) && AlbumOk(s, group);
    var items := s.albums[group].items;
    FoundItem(items, id);
    var item := items[IndexOf(items, id)];
    assert item in items && ItemOk(s, group, item);
  }

  lemma FoundItem(items: seq<Item>, id: MessageId)
    requires HasItem(items, id)
    ensures IndexOf(items, id) < |items|
  {
    var item :| item in items && item.id == id;
    var k :| 0 <= k < |items| && items[k] == item;
  }

  /** One item filled in */
  function Filled(s: Sending, id: MessageId, upload: nat, randomId: nat, group: Group, i: nat): Sending
    requires id in s.messages && group in s.albums && i < |s.albums[group].items|
  {
    var album, media := s.albums[group], Media(upload, randomId, s.messages[id].text);
    s.(uploads := s.uploads - {id}, stalled := s.stalled - {group},
       albums := s.albums[group := album.(items := album.items[i := Item(id, Some(media))])])
  }

  lemma FilledKeepsParts(s: Sending, id: MessageId, upload: nat, randomId: nat, group: Group, i: nat)
    requires Inv(s) && id in s.uploads && id in s.messages && group == s.messages[id].group
    requires group in s.albums && !s.albums[group].sent && i < |s.albums[group].items|
    requires s.albums[group].items[i] == Item(id, None)
    ensures Parts(Filled(s, id, upload, randomId, group, i))
    ensures forall g | g != group :: Waiting(Filled(s, id, upload, randomId, group, i), g)
  {
    hide WasSubmitted;
    var t := Filled(s, id, upload, randomId, group, i);
    var was, now := s.albums[group].items, t.albums[group].items;
    assert AlbumOk(s, group) && MessageOk(s, id);
    forall item | item in now
      ensures ItemOk(t, group, item) && (item.id != 0 ==> item.id <= s.lastId)
    {
      var k :| 0 <= k < |now| && now[k] == item;
      if k != i {
        assert was[k] in was && ItemOk(s, group, was[k]);
        assert was[k].id != id;
      }
    }
    forall g
      ensures AlbumOk(t, g)
    {
      assert AlbumOk(s, g);
      if g in s.albums && g != group && !s.albums[g].sent {
        OthersItemsStay(s, t, g, id);
      }
    }
    forall m
      ensures MessageOk(t, m)
    {
      assert MessageOk(s, m);
      if m in s.messages && s.messages[m].group == group {
        var item :| item in was && item.id == m;
        var k :| 0 <= k < |was| && was[k] == item;
        assert now[k].id == m && now[k] in now;
      }
    }
    forall g | g != group
      ensures Waiting(t, g)
    {
      assert Waiting(s, g);
    }
  }

  /** Items of another album have other messages. */
  lemma OthersItemsStay(s: Sending, t: Sending, g: Group, id: MessageId)
    requires AlbumOk(s, g) && g in s.albums && !s.albums[g].sent
    requires id in s.messages && s.messages[id].group != g
    requires t.messages == s.messages && t.uploads == s.uploads - {id} && t.lost == s.lost
    ensures forall item | item in s.albums[g].items :: ItemOk(t, g, item)
  {
    forall item | item in s.albums[g].items
      ensures ItemOk(t, g, item)
    {
      assert ItemOk(s, g, item);
    }
  }

  lemma UploadedKeepsInv(s: Sending, id: MessageId, upload: nat, randomId: nat)
    requires Inv(s) && id in s.uploads
    ensures Inv(Uploaded(s, id, upload, randomId))
  {
    hide Parts, SendIfReady, IndexOf;
    if id in s.messages {
      UploadFindsItem(s, id);
      var group := s.messages[id].group;
      var i := IndexOf(s.albums[group].items, id);
      FilledKeepsParts(s, id, upload, randomId, group, i);
      SendIfReadyKeepsInv(Filled(s, id, upload, randomId, group, i), group);
    } else {
      ForgottenUpload(s, id);
    }
  }

  lemma ForgottenUpload(s: Sending, id: MessageId)
    requires Inv(s) && id !in s.messages
    ensures Inv(s.(uploads := s.uploads - {id}))
  {
    hide WasSubmitted;
    var t := s.(uploads := s.uploads - {id});
    forall g
      ensures AlbumOk(t, g) && Waiting(t, g)
    {
      assert AlbumOk(s, g) && Waiting(s, g);
    }
    forall m
      ensures MessageOk(t, m)
    {
      assert MessageOk(s, m);
    }
  }

  lemma UploadLostKeepsInv(s: Sending, id: MessageId)
    requires Inv(s) && id in s.uploads
    ensures Inv(UploadLost(s, id))
  {
    hide WasSubmitted;
    var t := UploadLost(s, id);
    forall g
      ensures AlbumOk(t, g) && Waiting(t, g)
    {
      assert AlbumOk(s, g) && Waiting(s, g);
      if g in s.albums && !s.albums[g].sent {
        ItemsWithLost(s, id, g);
      }
    }
    forall m
      ensures MessageOk(t, m)
    {
      assert MessageOk(s, m);
    }
  }

  lemma ItemsWithLost(s: Sending, id: MessageId, g: Group)
    requires AlbumOk(s, g) && g in s.albums && !s.albums[g].sent
    ensures forall item | item in s.albums[g].items :: ItemOk(UploadLost(s, id), g, item)
  {
    forall item | item in s.albums[g].items
      ensures ItemOk(UploadLost(s, id), g, item)
    {
      assert ItemOk(s, g, item);
    }
  }

  // ----- Cancellations -----

  /** The state when the message of the cancelled item is gone too */
  function Removed(s: Sending, id: MessageId, group: Group, i: nat): Sending
    requires id in s.messages && group in s.albums && i < |s.albums[group].items|
  {
    var removed := RemoveItem(s.(stalled := s.stalled - {group}), group, i, s.messages[id].text);
    removed.(messages := removed.messages - {id})
  }

  /** The items that stay, with the caption moved */
  function Left(items: seq<Item>, i: nat, messages: map<MessageId, Message>, text: string): seq<Item>
    requires i < |items|
  {
    var rest := items[..i] + items[i + 1..];
    if i == 0 && rest != [] && rest[0].id in messages
    then Recaptioned(rest, JoinedText(messages[rest[0].id].text, text)) else rest
  }

  lemma LeftItems(items: seq<Item>, i: nat, messages: map<MessageId, Message>, text: string)
    requires i < |items| && DistinctIds(items)
    ensures var left, rest := Left(items, i, messages, text), items[..i] + items[i + 1..];
            && |left| == |rest| && DistinctIds(left)
            && (forall k | 0 <= k < |left| :: left[k].id == rest[k].id && left[k].media.Some? == rest[k].media.Some?)
            && (Complete(items) ==> Complete(left))
            && (forall id | id != items[i].id && HasItem(items, id) :: HasItem(left, id))
            && (items[i].id != 0 ==> !HasItem(left, items[i].id))
  {
    var left, rest := Left(items, i, messages, text), items[..i] + items[i + 1..];
    Without(items, i);
    assert forall k | 0 <= k < |left| :: rest[k] in rest;
    forall id | id != items[i].id && HasItem(items, id)
      ensures HasItem(left, id)
    {
      var item :| item in rest && item.id == id;
      var k :| 0 <= k < |rest| && rest[k] == item;
      assert left[k].id == id && left[k] in left;
    }
  }

  /** The texts after a removal */
  function Texts(messages: map<MessageId, Message>, id: MessageId, items: seq<Item>, i: nat): map<MessageId, Message>
    requires id in messages && i < |items|
  {
    var rest := items[..i] + items[i + 1..];
    (if i == 0 && rest != [] && rest[0].id in messages
     then messages[rest[0].id := messages[rest[0].id].(text := JoinedText(messages[rest[0].id].text, messages[id].text))]
     else messages) - {id}
  }

  lemma RemovedShape(s: Sending, id: MessageId, group: Group, i: nat)
    requires id in s.messages && group in s.albums && i < |s.albums[group].items|
    ensures var t, was := Removed(s, id, group, i), s.albums[group];
            t == s.(stalled := s.stalled - {group}, messages := Texts(s.messages, id, was.items, i),
                    albums := s.albums[group := was.(items := Left(was.items, i, s.messages, s.messages[id].text))])
  {
    hide JoinedText, Recaptioned;
  }

  lemma RemovedTexts(s: Sending, id: MessageId, group: Group, i: nat)
    requires AlbumOk(s, group) && id in s.messages && group in s.albums && i < |s.albums[group].items|
    ensures var messages := Texts(s.messages, id, s.albums[group].items, i);
            && messages.Keys == s.messages.Keys - {id}
            && (forall m | m in messages :: messages[m].group == s.messages[m].group)
            && (forall m | m in messages && s.messages[m].group != group :: messages[m] == s.messages[m])
  {
    hide WasSubmitted, DistinctIds, Complete;
    var items := s.albums[group].items;
    var rest := items[..i] + items[i + 1..];
    if i == 0 && rest != [] {
      assert rest[0] == items[1] && items[1] in items;
    }
  }

  lemma RemovedItemsOk(s: Sending, id: MessageId, group: Group, i: nat)
    requires AlbumOk(s, group) && id in s.messages && group == s.messages[id].group && id != 0
    requires group in s.albums && i < |s.albums[group].items| && s.albums[group].items[i].id == id
    requires !s.albums[group].sent
    ensures var t := Removed(s, id, group, i);
            forall item | item in t.albums[group].items :: ItemOk(t, group, item)
  {
    hide WasSubmitted, Removed, JoinedText;
    var t, was := Removed(s, id, group, i), s.albums[group].items;
    var left, rest := Left(was, i, s.messages, s.messages[id].text), was[..i] + was[i + 1..];
    RemovedShape(s, id, group, i);
    forall k | 0 <= k < |rest|
      ensures ItemOk(t, group, left[k])
    {
      var j := if k < i then k else k + 1;
      assert rest[k] == was[j] && was[j] in was && ItemOk(s, group, was[j]);
      assert was[j].id != id;
      assert i == 0 && k > 0 ==> was[j].id == 0 || was[j].id != was[1].id;
    }
  }

  lemma RemovedKeepsParts(s: Sending, id: MessageId, group: Group, i: nat)
    requires Inv(s) && id in s.messages && group == s.messages[id].group
    requires group in s.albums && i < |s.albums[group].items| && s.albums[group].items[i].id == id
    ensures Parts(Removed(s, id, group, i))
    ensures forall g | g != group :: Waiting(Removed(s, id, group, i), g)
    ensures !HasItem(Removed(s, id, group, i).albums[group].items, id)
  {
    hide WasSubmitted, Removed, Left, Texts;
    var t, was := Removed(s, id, group, i), s.albums[group].items;
    assert AlbumOk(s, group) && MessageOk(s, id);
    RemovedShape(s, id, group, i);
    RemovedTexts(s, id, group, i);
    if !s.albums[group].sent {
      RemovedItemsOk(s, id, group, i);
    }
    LeftItems(was, i, s.messages, s.messages[id].text);
    Without(was, i);
    forall g
      ensures AlbumOk(t, g)
    {
      assert AlbumOk(s, g);
    }
    forall m
      ensures MessageOk(t, m)
    {
      assert MessageOk(s, m);
    }
    forall g | g != group
      ensures Waiting(t, g)
    {
      assert Waiting(s, g);
    }
  }

  /** Messages that no unsent album needs may go. */
  lemma GoneKeepsInv(s: Sending, gone: set<MessageId>)
    requires Inv(s)
    requires forall m | m in gone && m in s.messages ::
               s.messages[m].group in s.albums ==> s.albums[s.messages[m].group].sent
    ensures Inv(s.(messages := s.messages - gone))
  {
    hide WasSubmitted;
    var t := s.(messages := s.messages - gone);
    forall g
      ensures AlbumOk(t, g) && Waiting(t, g)
    {
      assert AlbumOk(s, g) && Waiting(s, g);
    }
    forall m
      ensures MessageOk(t, m)
    {
      assert MessageOk(s, m);
    }
  }

  /** The message of a cancelled item plays no role in the decision to send the others. */
  lemma SendsWithout(s: Sending, group: Group, id: MessageId)
    requires group in s.albums && !HasItem(s.albums[group].items, id)
    ensures var sent := SendIfReady(s, group);
            SendIfReady(s.(messages := s.messages - {id}), group) == sent.(messages := sent.messages - {id})
  {
    var items := s.albums[group].items;
    assert HasSample(items, s.messages - {id}) <==> HasSample(items, s.messages) by {
      if HasSample(items, s.messages) {
        var item :| item in items && item.id in s.messages;
        assert item.id != id;
      }
    }
  }

  lemma CancelledKeepsInv(s: Sending, id: MessageId)
    requires Inv(s) && id in s.messages
    ensures Inv(Cancelled(s, id))
  {
    hide Parts, SendIfReady, RemoveItem, Waiting;
    var group := s.messages[id].group;
    if group !in s.albums {
      GoneKeepsInv(s, {id});
    } else {
      CancelFindsItem(s, id);
      var i := IndexOf(s.albums[group].items, id);
      RemovedKeepsParts(s, id, group, i);
      var removed := RemoveItem(s.(stalled := s.stalled - {group}), group, i, s.messages[id].text);
      RemovedKeepsAlbum(s, group, i, s.messages[id].text);
      SendsWithout(removed, group, id);
      SendIfReadyKeepsInv(Removed(s, id, group, i), group);
    }
  }

  lemma RemovedKeepsAlbum(s: Sending, group: Group, i: nat, text: string)
    requires group in s.albums && i < |s.albums[group].items|
    ensures group in RemoveItem(s.(stalled := s.stalled - {group}), group, i, text).albums
    ensures group !in RemoveItem(s.(stalled := s.stalled - {group}), group, i, text).stalled
  {}

  /** The item of a message is in its album: the assertion in `removeItem` holds. */
  lemma CancelFindsItem(s: Sending, id: MessageId)
    requires Inv(s) && id in s.messages && s.messages[id].group in s.albums
    ensures IndexOf(s.albums[s.messages[id].group].items, id) < |s.albums[s.messages[id].group].items|
  {
    hide WasSubmitted, AlbumOk;
    assert MessageOk(s, id);
    FoundItem(s.albums[s.messages[id].group].items, id);
  }

  // ----- Answers -----

  lemma AnsweredKeepsInv(s: Sending, group: Group)
    requires Inv(s) && WasSubmitted(s.submitted, group)
    ensures Inv(Answered(s, group))
  {
    hide WasSubmitted, MessageOk;
    if group in s.albums {
      assert AlbumOk(s, group);
      DropKeepsParts(s, group);
      forall g
        ensures Waiting(Answered(s, group), g)
      {
        assert Waiting(s, g);
      }
    } else {
      assert s.albums - {group} == s.albums;
    }
  }

  lemma PaidAnsweredKeepsInv(s: Sending, group: Group)
    requires Inv(s) && WasSubmitted(s.submitted, group)
    ensures Inv(PaidAnswered(s, group))
  {
    hide MessageOk;
    if group in s.albums {
      var gone := set item | item in s.albums[group].items :: item.id;
      assert AlbumOk(s, group);
      forall m | m in gone && m in s.messages
        ensures s.messages[m].group == group
      {
        var item :| item in s.albums[group].items && item.id == m;
      }
      GoneKeepsInv(s, gone);
      AnsweredKeepsInv(s.(messages := s.messages - gone), group);
    }
  }

  lemma SettledKeepsInv(s: Sending, id: MessageId)
    requires Inv(s) && id in s.messages && WasSubmitted(s.submitted, s.messages[id].group)
    ensures Inv(Settled(s, id))
  {
    hide WasSubmitted;
    assert AlbumOk(s, s.messages[id].group);
    GoneKeepsInv(s, {id});
  }

  // ----- Runs -----

  lemma StepKeepsInv(s: Sending, e: Event)
    requires Inv(s) && Enabled(s, e)
    ensures Inv(Step(s, e))
  {
    hide Inv, Started, Loaded, LoadFailed, Uploaded, UploadLost, Cancelled, Answered, PaidAnswered, Settled, WasSubmitted;
    match e
    case Start(group, files, price) => StartedKeepsInv(s, group, files, price);
    case Load(group, i, text) => LoadedKeepsInv(s, group, i, text);
    case FailToLoad(group, i) => LoadFailedKeepsInv(s, group, i);
    case Upload(id, upload, randomId) => UploadedKeepsInv(s, id, upload, randomId);
    case UploadFailed(id) => UploadLostKeepsInv(s, id);
    case Cancel(id) => CancelledKeepsInv(s, id);
    case Answer(group) => AnsweredKeepsInv(s, group);
    case PaidAnswer(group) => PaidAnsweredKeepsInv(s, group);
    case Settle(id) => SettledKeepsInv(s, id);
  }

  ghost predicate AllEnabled(s: Sending, run: seq<Event>)
    decreases |run|
  {
    run == [] || (Enabled(s, run[0]) && AllEnabled(Step(s, run[0]), run[1..]))
  }

  ghost function Run(s: Sending, run: seq<Event>): Sending
    requires AllEnabled(s, run)
    decreases |run|
  {
    if run == [] then s else Run(Step(s, run[0]), run[1..])
  }

  lemma {:induction false} RunKeepsInv(s: Sending, run: seq<Event>)
    requires Inv(s) && AllEnabled(s, run)
    ensures Inv(Run(s, run))
    decreases |run|
  {
    hide Inv, Step, Enabled;
    if run != [] {
      StepKeepsInv(s, run[0]);
      RunKeepsInv(Step(s, run[0]), run[1..]);
    }
  }

  // ----- Albums that lost a file -----

  /** An album counts as stalled from the failure of a file on, until an upload or a cancellation of one of its items. */
  ghost predicate StalledOk(s: Sending) {
    forall group | group in s.stalled :: group in s.used && (group in s.albums ==> !s.albums[group].sent)
  }

  lemma SendIfReadyKeepsStalled(s: Sending, group: Group)
    requires StalledOk(s) && group in s.albums && group !in s.stalled
    ensures StalledOk(SendIfReady(s, group))
  {
    hide HasSample, Complete;
  }

  lemma LoadFailedKeepsStalled(s: Sending, group: Group, i: nat)
    requires Inv(s) && StalledOk(s)
    requires group in s.albums && i < |s.albums[group].items| && s.albums[group].items[i] == Item(0, None)
    ensures StalledOk(LoadFailed(s, group, i))
  {
    hide WasSubmitted;
    assert AlbumOk(s, group) && s.albums[group].items[i] in s.albums[group].items;
  }

  lemma UploadedKeepsStalled(s: Sending, id: MessageId, upload: nat, randomId: nat)
    requires Inv(s) && StalledOk(s) && id in s.uploads
    ensures StalledOk(Uploaded(s, id, upload, randomId))
  {
    hide Inv, SendIfReady, IndexOf;
    if id in s.messages {
      UploadFindsItem(s, id);
      var group := s.messages[id].group;
      SendIfReadyKeepsStalled(Filled(s, id, upload, randomId, group, IndexOf(s.albums[group].items, id)), group);
    }
  }

  lemma CancelledKeepsStalled(s: Sending, id: MessageId)
    requires Inv(s) && StalledOk(s) && id in s.messages
    ensures StalledOk(Cancelled(s, id))
  {
    hide Inv, SendIfReady, IndexOf, Recaptioned, JoinedText;
    var group := s.messages[id].group;
    if group in s.albums {
      CancelFindsItem(s, id);
      var i := IndexOf(s.albums[group].items, id);
      SendIfReadyKeepsStalled(RemoveItem(s.(stalled := s.stalled - {group}), group, i, s.messages[id].text), group);
    }
  }

  lemma StepKeepsStalled(s: Sending, e: Event)
    requires Inv(s) && StalledOk(s) && Enabled(s, e)
    ensures StalledOk(Step(s, e))
  {
    hide Inv, Uploaded, Cancelled, LoadFailed, WasSubmitted;
    match e
    case FailToLoad(group, i) => LoadFailedKeepsStalled(s, group, i);
    case Upload(id, upload, randomId) => UploadedKeepsStalled(s, id, upload, randomId);
    case Cancel(id) => CancelledKeepsStalled(s, id);
    case _ =>
  }

  lemma {:induction false} RunKeepsStalled(s: Sending, run: seq<Event>)
    requires Inv(s) && StalledOk(s) && AllEnabled(s, run)
    ensures StalledOk(Run(s, run))
    decreases |run|
  {
    hide Inv, StalledOk, Step, Enabled;
    if run != [] {
      StepKeepsInv(s, run[0]);
      StepKeepsStalled(s, run[0]);
      RunKeepsStalled(Step(s, run[0]), run[1..]);
    }
  }

  /**
   * From the start: no assertion fails, every album is submitted at most once, whichever way it goes, and an album of
   * which nothing is missing is unsent exactly if the last thing that happened to its items is a file that failed.
   */
  lemma SubmittedOnce(run: seq<Event>)
    requires AllEnabled(START, run)
    ensures var s := Run(START, run);
            && !s.crashed
            && (forall i, j | 0 <= i < |s.submitted| && 0 <= j < |s.submitted|
                  && s.submitted[i].group == s.submitted[j].group :: i == j)
            && (forall group | group in s.albums && Complete(s.albums[group].items)
                  :: !s.albums[group].sent <==> group in s.stalled)
  {
    hide Run, AllEnabled;
    StartInv();
    RunKeepsInv(START, run);
    RunKeepsStalled(START, run);
    var s := Run(START, run);
    forall group | group in s.albums && Complete(s.albums[group].items)
      ensures !s.albums[group].sent <==> group in s.stalled
    {
      assert Waiting(s, group);
    }
  }

  /** An unsent album of which nothing is missing */
  predicate Stuck(s: Sending, group: Group) {
    group in s.albums && !s.albums[group].sent && Complete(s.albums[group].items)
  }

  predicate CancelsItem(s: Sending, e: Event, group: Group) {
    e.Cancel? && e.id in s.messages && s.messages[e.id].group == group
  }

  /** Nothing but a cancellation of one of its items changes such an album. */
  lemma StuckStays(s: Sending, e: Event, group: Group)
    requires Inv(s) && Enabled(s, e) && Stuck(s, group) && !CancelsItem(s, e, group)
    ensures Stuck(Step(s, e), group) && Step(s, e).albums[group] == s.albums[group]
  {
    hide Inv, Uploaded, Cancelled, MessageOk, DistinctIds, WasSubmitted;
    assert AlbumOk(s, group) by { ItsAlbumOk(s, group); }
    match e
    case Load(g, i, _) => MissingIn(s, g, i);
    case FailToLoad(g, i) => MissingIn(s, g, i);
    case Upload(id, upload, randomId) => UploadKeepsStuck(s, id, upload, randomId, group);
    case Cancel(id) => CancelKeepsStuck(s, id, group);
    case _ =>
  }

  lemma ItsAlbumOk(s: Sending, group: Group)
    requires Inv(s)
    ensures AlbumOk(s, group)
  {}

  lemma MissingIn(s: Sending, group: Group, i: nat)
    requires group in s.albums && i < |s.albums[group].items| && s.albums[group].items[i].media == None
    ensures !Stuck(s, group)
  {
    assert s.albums[group].items[i] in s.albums[group].items;
  }

  lemma SendKeepsOthers(s: Sending, group: Group, other: Group)
    requires group in s.albums && group != other && other in s.albums
    ensures other in SendIfReady(s, group).albums && SendIfReady(s, group).albums[other] == s.albums[other]
  {}

  lemma UploadKeepsStuck(s: Sending, id: MessageId, upload: nat, randomId: nat, group: Group)
    requires Inv(s) && id in s.uploads && Stuck(s, group)
    ensures var t := Uploaded(s, id, upload, randomId); group in t.albums && t.albums[group] == s.albums[group]
  {
    hide Inv, SendIfReady, IndexOf;
    if id in s.messages {
      UploadFindsItem(s, id);
      var its := s.messages[id].group;
      var i := IndexOf(s.albums[its].items, id);
      MissingIn(s, its, i);
      SendKeepsOthers(Filled(s, id, upload, randomId, its, i), its, group);
    }
  }

  lemma CancelKeepsStuck(s: Sending, id: MessageId, group: Group)
    requires Inv(s) && id in s.messages && Stuck(s, group) && s.messages[id].group != group
    ensures var t := Cancelled(s, id); group in t.albums && t.albums[group] == s.albums[group]
  {
    hide Inv, SendIfReady, IndexOf, Recaptioned, JoinedText;
    var its := s.messages[id].group;
    if its in s.albums {
      CancelFindsItem(s, id);
      var i := IndexOf(s.albums[its].items, id);
      SendKeepsOthers(RemoveItem(s.(stalled := s.stalled - {its}), its, i, s.messages[id].text), its, group);
    }
  }

  /** No event of the run cancels an item of the album. */
  ghost predicate NoneCancelled(s: Sending, run: seq<Event>, group: Group)
    requires AllEnabled(s, run)
    decreases |run|
  {
    run == [] || (!CancelsItem(s, run[0], group) && NoneCancelled(Step(s, run[0]), run[1..], group))
  }

  /** As long as none of its items is cancelled, an album that was left unsent is never submitted. */
  lemma {:induction false} StaysUnsent(s: Sending, run: seq<Event>, group: Group)
    requires Inv(s) && AllEnabled(s, run) && Stuck(s, group) && NoneCancelled(s, run, group)
    ensures var t := Run(s, run);
            && Stuck(t, group) && t.albums[group] == s.albums[group] && !WasSubmitted(t.submitted, group)
    decreases |run|
  {
    hide Inv, Step, Enabled, WasSubmitted, CancelsItem;
    if run == [] {
      assert AlbumOk(s, group) by { ItsAlbumOk(s, group); }
    } else {
      StepKeepsInv(s, run[0]);
      StuckStays(s, run[0], group);
      StaysUnsent(Step(s, run[0]), run[1..], group);
    }
  }

  /** A cancellation of one of its items submits the others, or drops an album of one item. */
  lemma CancelReleases(s: Sending, id: MessageId)
    requires Inv(s) && id in s.messages && Stuck(s, s.messages[id].group)
    ensures var group := s.messages[id].group;
            var album, t := s.albums[group], Cancelled(s, id);
            var i := IndexOf(album.items, id);
            && i < |album.items|
            && var left := Left(album.items, i, s.messages, s.messages[id].text);
               && |left| == |album.items| - 1 && Complete(left)
               && (if left == [] then t.submitted == s.submitted && group !in t.albums
                   else t.submitted == s.submitted + [Submission(group, WayOf(album.price, |left|), Medias(left))])
  {
    hide Inv, IndexOf, Left, Cancelled, DistinctIds;
    CancelSubmits(s, id);
    var group := s.messages[id].group;
    var items, i := s.albums[group].items, IndexOf(s.albums[group].items, id);
    assert DistinctIds(items) by { ItsAlbumOk(s, group); }
    LeftItems(items, i, s.messages, s.messages[id].text);
    if |items| == 1 {
      LastItemCancelled(s, id);
    }
  }

  lemma LastItemCancelled(s: Sending, id: MessageId)
    requires id in s.messages && s.messages[id].group in s.albums
    requires var album := s.albums[s.messages[id].group]; |album.items| == 1 && !album.sent && album.items[0].id == id
    ensures s.messages[id].group !in Cancelled(s, id).albums
  {}

  // ----- Uploads that failed -----

  /** Every file of the album is loaded, and none is uploading. */
  ghost predicate NothingOnItsWay(s: Sending, group: Group) {
    group in s.albums ==> forall item | item in s.albums[group].items :: item.id != 0 && item.id !in s.uploads
  }

  /** The upload of an item failed, and the item has no media. */
  ghost predicate LostItem(s: Sending, group: Group, id: MessageId) {
    group in s.albums && !s.albums[group].sent && id in s.lost && Item(id, None) in s.albums[group].items
  }

  /**
   * From the start: an album of which nothing is on its way is unsent exactly if it was left complete by a file that
   * failed to load, or the upload of one of its items failed.
   */
  lemma UnsentIff(run: seq<Event>, group: Group)
    requires AllEnabled(START, run)
    requires group in Run(START, run).albums && NothingOnItsWay(Run(START, run), group)
    ensures var s := Run(START, run);
            !s.albums[group].sent <==> group in s.stalled || exists id :: LostItem(s, group, id)
  {
    hide Run, AllEnabled, WasSubmitted, MessageOk;
    StartInv();
    RunKeepsInv(START, run);
    RunKeepsStalled(START, run);
    var s := Run(START, run);
    assert AlbumOk(s, group) && Waiting(s, group);
    if !s.albums[group].sent && group !in s.stalled {
      var item :| item in s.albums[group].items && item.media.None?;
      assert ItemOk(s, group, item) && item == Item(item.id, None);
      assert LostItem(s, group, item.id);
    }
  }

  /** Nothing but its cancellation takes such an item away, and with it the album stays unsent. */
  lemma LostStays(s: Sending, e: Event, group: Group, id: MessageId)
    requires Inv(s) && Enabled(s, e) && LostItem(s, group, id) && e != Cancel(id)
    ensures LostItem(Step(s, e), group, id)
  {
    hide Inv, Uploaded, Cancelled, Loaded, LoadFailed, MessageOk, DistinctIds, WasSubmitted;
    ItsAlbumOk(s, group);
    ItsMessageOk(s, id);
    match e
    case Load(g, i, text) => LoadedKeepsLost(s, g, i, text, group, id);
    case FailToLoad(g, i) => LoadFailedKeepsLost(s, g, i, group, id);
    case Upload(u, upload, randomId) => UploadedKeepsLost(s, u, upload, randomId, group, id);
    case Cancel(c) => CancelledKeepsLost(s, c, group, id);
    case _ =>
  }

  lemma ItsMessageOk(s: Sending, id: MessageId)
    requires Inv(s)
    ensures id in s.lost ==> id != 0 && id !in s.uploads
  {
    assert MessageOk(s, id);
  }

  lemma LoadedKeepsLost(s: Sending, g: Group, i: nat, text: string, group: Group, id: MessageId)
    requires LostItem(s, group, id) && id != 0
    requires g in s.albums && i < |s.albums[g].items| && s.albums[g].items[i] == Item(0, None)
    ensures LostItem(Loaded(s, g, i, text), group, id)
  {
    var items := s.albums[group].items;
    var k :| 0 <= k < |items| && items[k] == Item(id, None);
    assert Loaded(s, g, i, text).albums[group].items[k] == Item(id, None);
  }

  lemma LoadFailedKeepsLost(s: Sending, g: Group, i: nat, group: Group, id: MessageId)
    requires LostItem(s, group, id) && id != 0
    requires g in s.albums && i < |s.albums[g].items| && s.albums[g].items[i] == Item(0, None)
    ensures LostItem(LoadFailed(s, g, i), group, id)
  {
    if g == group {
      StillIn(s.albums[group].items, i, Item(id, None));
    }
  }

  lemma StillIn(items: seq<Item>, i: nat, item: Item)
    requires i < |items| && item in items && items[i] != item
    ensures item in items[..i] + items[i + 1..]
  {
    assert items == items[..i] + [items[i]] + items[i + 1..];
  }

  lemma UploadedKeepsLost(s: Sending, u: MessageId, upload: nat, randomId: nat, group: Group, id: MessageId)
    requires Inv(s) && u in s.uploads && LostItem(s, group, id)
    ensures LostItem(Uploaded(s, u, upload, randomId), group, id)
  {
    hide Inv, SendIfReady, IndexOf;
    ItsMessageOk(s, id);
    if u in s.messages {
      UploadFindsItem(s, u);
      var its := s.messages[u].group;
      var i := IndexOf(s.albums[its].items, u);
      var filled := Filled(s, u, upload, randomId, its, i);
      if its == group {
        var items := s.albums[group].items;
        var k :| 0 <= k < |items| && items[k] == Item(id, None);
        WaitsFor(filled, group, k);
        assert filled.albums[group].items[k] == Item(id, None);
      } else {
        SendKeepsOthers(filled, its, group);
      }
      SendKeepsLost(filled, its);
    }
  }

  lemma SendKeepsLost(s: Sending, group: Group)
    requires group in s.albums
    ensures SendIfReady(s, group).lost == s.lost
  {}

  lemma CancelledKeepsLost(s: Sending, c: MessageId, group: Group, id: MessageId)
    requires Inv(s) && c in s.messages && c != id && LostItem(s, group, id)
    ensures LostItem(Cancelled(s, c), group, id)
  {
    hide Inv, SendIfReady, IndexOf, JoinedText;
    var its := s.messages[c].group;
    if its in s.albums {
      CancelFindsItem(s, c);
      var i := IndexOf(s.albums[its].items, c);
      var removed := RemoveItem(s.(stalled := s.stalled - {its}), its, i, s.messages[c].text);
      if its == group {
        var items := s.albums[group].items;
        StillIn(items, i, Item(id, None));
        var rest := items[..i] + items[i + 1..];
        var k :| 0 <= k < |rest| && rest[k] == Item(id, None);
        assert removed.albums[group].items[k] == Item(id, None);
        WaitsFor(removed, group, k);
      } else {
        SendKeepsOthers(removed, its, group);
      }
      SendKeepsLost(removed, its);
    }
  }

  /** As long as it is not cancelled, an item whose upload failed keeps its album from being submitted, in every run. */
  lemma {:induction false} LostStaysUnsent(s: Sending, run: seq<Event>, group: Group, id: MessageId)
    requires Inv(s) && AllEnabled(s, run) && LostItem(s, group, id) && Cancel(id) !in run
    ensures LostItem(Run(s, run), group, id) && !WasSubmitted(Run(s, run).submitted, group)
    decreases |run|
  {
    hide Inv, Step, Enabled, WasSubmitted;
    if run == [] {
      ItsAlbumOk(s, group);
    } else {
      StepKeepsInv(s, run[0]);
      LostStays(s, run[0], group, id);
      LostStaysUnsent(Step(s, run[0]), run[1..], group, id);
    }
  }

  lemma StartInv()
    ensures Inv(START)
  {}

  // ----- What is submitted -----

  function WayOf(price: int, count: nat): Way { if price > 0 then Paid else if count < 2 then Single else Multi }

  /** The item of an upload filled in */
  function WithMedia(items: seq<Item>, id: MessageId, media: Media): seq<Item>
    requires IndexOf(items, id) < |items|
  {
    items[IndexOf(items, id) := Item(id, Some(media))]
  }

  /**
   * An upload submits the album exactly when no item is missing any more: the media of all items, in their order, each
   * with the text that its message has then.
   */
  lemma UploadSubmits(s: Sending, id: MessageId, upload: nat, randomId: nat)
    requires Inv(s) && id in s.uploads && id in s.messages
    ensures s.messages[id].group in s.albums
    ensures IndexOf(s.albums[s.messages[id].group].items, id) < |s.albums[s.messages[id].group].items|
    ensures var group := s.messages[id].group;
            var album := s.albums[group];
            var items := WithMedia(album.items, id, Media(upload, randomId, s.messages[id].text));
            && Uploaded(s, id, upload, randomId).submitted
               == s.submitted + (if Complete(items)
                                 then [Submission(group, WayOf(album.price, |items|), Medias(items))] else [])
            && (Complete(items) ==> forall k | 0 <= k < |items| ::
                  items[k].id in s.messages && Medias(items)[k].caption == s.messages[items[k].id].text)
  {
    hide Parts, IndexOf, HasSample;
    UploadFindsItem(s, id);
    var group := s.messages[id].group;
    var i := IndexOf(s.albums[group].items, id);
    FilledKeepsParts(s, id, upload, randomId, group, i);
    var filled := Filled(s, id, upload, randomId, group, i);
    if Complete(filled.albums[group].items) {
      CompleteHasSample(filled, group);
      CaptionsAreTexts(filled, group);
    }
  }

  lemma CaptionsAreTexts(s: Sending, group: Group)
    requires Parts(s) && group in s.albums && !s.albums[group].sent && Complete(s.albums[group].items)
    ensures var items := s.albums[group].items;
            forall k | 0 <= k < |items| ::
              items[k].id in s.messages && Medias(items)[k].caption == s.messages[items[k].id].text
  {
    hide WasSubmitted;
    assert AlbumOk(s, group);
    var items := s.albums[group].items;
    forall k | 0 <= k < |items|
      ensures items[k].id in s.messages && Medias(items)[k].caption == s.messages[items[k].id].text
    {
      assert items[k] in items && ItemOk(s, group, items[k]);
    }
  }

  /** A cancellation submits the others exactly when there are some and none of them is missing. */
  lemma CancelSubmits(s: Sending, id: MessageId)
    requires Inv(s) && id in s.messages && s.messages[id].group in s.albums
    ensures var group := s.messages[id].group;
            var album := s.albums[group];
            var i := IndexOf(album.items, id);
            && i < |album.items|
            && var left := Left(album.items, i, s.messages, s.messages[id].text);
               Cancelled(s, id).submitted
               == s.submitted + (if !album.sent && left != [] && Complete(left)
                                 then [Submission(group, WayOf(album.price, |left|), Medias(left))] else [])
  {
    hide Parts, IndexOf, HasSample, RemoveItem, Left;
    CancelFindsItem(s, id);
    var group := s.messages[id].group;
    var i := IndexOf(s.albums[group].items, id);
    var removed := RemoveItem(s.(stalled := s.stalled - {group}), group, i, s.messages[id].text);
    RemovedShape(s, id, group, i);
    RemovedKeepsAlbum(s, group, i, s.messages[id].text);
    RemovedKeepsParts(s, id, group, i);
    SendsWithout(removed, group, id);
    var t := Removed(s, id, group, i);
    if !t.albums[group].sent && t.albums[group].items != [] && Complete(t.albums[group].items) {
      CompleteHasSample(t, group);
    }
  }

  /** A single file takes its album out at once; any other album stays until its answer, and is sent. */
  lemma SubmittedAlbum(s: Sending, group: Group)
    requires Parts(s) && group in s.albums && !s.albums[group].sent
    requires s.albums[group].items != [] && Complete(s.albums[group].items)
    ensures var album, t := s.albums[group], SendIfReady(s, group);
            && t.submitted == s.submitted + [Submission(group, WayOf(album.price, |album.items|), Medias(album.items))]
            && (if album.price <= 0 && |album.items| == 1 then group !in t.albums
                else group in t.albums && t.albums[group] == album.(sent := true))
            && t == s.(albums := t.albums, submitted := t.submitted)
  {
    hide Parts, HasSample;
    CompleteHasSample(s, group);
  }

  /** A complete album of which no message is left is dropped, and not sent. */
  lemma WithoutMessagesDropped(s: Sending, group: Group)
    requires group in s.albums && !s.albums[group].sent && Complete(s.albums[group].items)
    requires forall item | item in s.albums[group].items :: item.id !in s.messages
    ensures SendIfReady(s, group) == s.(albums := s.albums - {group})
  {}

  /** The answer to a send takes the album out; that to a paid one takes the messages of its items along. */
  lemma AnswersAre(s: Sending, group: Group)
    ensures group !in Answered(s, group).albums && group !in PaidAnswered(s, group).albums
    ensures Answered(s, group).messages == s.messages && Answered(s, group).submitted == s.submitted
    ensures PaidAnswered(s, group).submitted == s.submitted
    ensures forall m ::
              m in PaidAnswered(s, group).messages
              <==> m in s.messages && (group in s.albums ==> !HasItem(s.albums[group].items, m))
    ensures forall g | g != group && g in s.albums ::
              && g in Answered(s, group).albums && Answered(s, group).albums[g] == s.albums[g]
              && g in PaidAnswered(s, group).albums && PaidAnswered(s, group).albums[g] == s.albums[g]
  {}

  lemma SettledIs(s: Sending, id: MessageId)
    ensures id !in Settled(s, id).messages && Settled(s, id) == s.(messages := s.messages - {id})
  {}

  /**
   * The message of a cancelled item is gone. If it was the first item, the next one that was loaded takes over its text,
   * behind its own one in a line of its own, and so does its media; no other message changes.
   */
  lemma CancelMovesText(s: Sending, id: MessageId)
    requires Inv(s) && id in s.messages
    ensures var t, group := Cancelled(s, id), s.messages[id].group;
            && t.messages.Keys == s.messages.Keys - {id}
            && (group !in s.albums ==> t.messages == s.messages - {id})
            && (group in s.albums ==>
                  var items := s.albums[group].items;
                  forall m | m in t.messages ::
                    && t.messages[m].group == s.messages[m].group
                    && t.messages[m].text
                       == (if |items| > 1 && items[0].id == id && items[1].id == m then
                             (if s.messages[m].text == "" then s.messages[id].text
                              else s.messages[m].text + "\n" + s.messages[id].text)
                           else s.messages[m].text))
  {
    hide SendIfReady, Parts;
    var group := s.messages[id].group;
    if group in s.albums {
      CancelFindsItem(s, id);
      var i := IndexOf(s.albums[group].items, id);
      var removed := RemoveItem(s.(stalled := s.stalled - {group}), group, i, s.messages[id].text);
      RemovedKeepsAlbum(s, group, i, s.messages[id].text);
      SendKeepsMessages(removed, group);
      FirstIsFound(s.albums[group].items, id, i);
    }
  }

  lemma SendKeepsMessages(s: Sending, group: Group)
    requires group in s.albums
    ensures SendIfReady(s, group).messages == s.messages
  {}

  lemma FirstIsFound(items: seq<Item>, id: MessageId, i: nat)
    requires i == IndexOf(items, id) < |items|
    ensures i == 0 <==> items[0].id == id
    ensures |items| > 1 ==> (items[..i] + items[i + 1..])[0] == if i == 0 then items[1] else items[0]
    ensures |items| == 1 ==> items[..i] + items[i + 1..] == []
  {}

  /** What stays of the items: all others in their order, the first one with the text of its message if it is filled in */
  lemma CancelKeepsItems(s: Sending, id: MessageId)
    requires Inv(s) && id in s.messages && s.messages[id].group in s.albums
    ensures var group := s.messages[id].group;
            var items := s.albums[group].items;
            var i := IndexOf(items, id);
            && i < |items|
            && var left := Left(items, i, s.messages, s.messages[id].text);
               && |left| == |items| - 1
               && (forall k | 0 <= k < |left| && (k > 0 || i > 0) :: left[k] == items[if k < i then k else k + 1])
               && (i == 0 && left != [] ==>
                     && left[0].id == items[1].id
                     && (items[1].media.None? ==> left[0].media.None?)
                     && (items[1].media.Some? && items[1].id in s.messages ==>
                           left[0].media == Some(items[1].media.value.(caption :=
                             if s.messages[items[1].id].text == "" then s.messages[id].text
                             else s.messages[items[1].id].text + "\n" + s.messages[id].text))))
  {
    hide IndexOf, Parts;
    CancelFindsItem(s, id);
  }

  /** Nothing else submits an album. */
  lemma OthersSubmitNothing(s: Sending, e: Event)
    requires Enabled(s, e) && !e.Upload? && !e.Cancel?
    ensures Step(s, e).submitted == s.submitted
  {
    hide WasSubmitted;
  }

  /** An album whose last missing file could not be loaded: nothing is missing or on its way, and it is not sent. */
  lemma FailedFileStallsTheAlbum()
    ensures var run := [Start(7, 2, 0), Load(7, 0, "text"), Upload(1, 5, 6), FailToLoad(7, 1)];
            && AllEnabled(START, run)
            && var s := Run(START, run);
               && 7 in s.albums && !s.albums[7].sent && s.albums[7].items != [] && Complete(s.albums[7].items)
               && s.uploads == {} && s.submitted == []
  {
    var s1 := Started(START, 7, 2, 0);
    assert s1.albums[7].items == [Item(0, None), Item(0, None)];
    var s2 := Loaded(s1, 7, 0, "text");
    assert s2.albums[7].items == [Item(1, None), Item(0, None)];
    var filled := [Item(1, Some(Media(5, 6, "text"))), Item(0, None)];
    assert IndexOf(s2.albums[7].items, 1) == 0;
    var s3 := s2.(uploads := {}, albums := map[7 := Album(filled, 0, false)]);
    WaitsFor(s3, 7, 1);
    assert s2.uploads - {1} == {} && s2.stalled - {7} == s2.stalled;
    assert s2.albums[7 := Album(filled, 0, false)] == s3.albums;
    assert s2.albums[7].items[0 := filled[0]] == filled;
    assert s3 == Uploaded(s2, 1, 5, 6);
    var s4 := LoadFailed(s3, 7, 1);
    assert s4.albums[7].items == [filled[0]];
    var run := [Start(7, 2, 0), Load(7, 0, "text"), Upload(1, 5, 6), FailToLoad(7, 1)];
    FourSteps(run, s1, s2, s3, s4);
  }

  lemma WaitsFor(s: Sending, group: Group, k: nat)
    requires group in s.albums && k < |s.albums[group].items| && s.albums[group].items[k].media == None
    ensures SendIfReady(s, group) == s
  {
    assert s.albums[group].items[k] in s.albums[group].items;
  }

  lemma FourSteps(run: seq<Event>, s1: Sending, s2: Sending, s3: Sending, s4: Sending)
    requires |run| == 4
    requires Enabled(START, run[0]) && s1 == Step(START, run[0])
    requires Enabled(s1, run[1]) && s2 == Step(s1, run[1])
    requires Enabled(s2, run[2]) && s3 == Step(s2, run[2])
    requires Enabled(s3, run[3]) && s4 == Step(s3, run[3])
    ensures AllEnabled(START, run) && Run(START, run) == s4
  {
    hide Step, Enabled;
    var r1, r2, r3 := run[1..], run[1..][1..], run[1..][1..][1..];
    assert r1[0] == run[1] && r2[0] == run[2] && r3[0] == run[3] && r3[1..] == [];
    assert AllEnabled(s4, []) && AllEnabled(s3, r3) && AllEnabled(s2, r2) && AllEnabled(s1, r1);
    assert Run(s4, []) == s4 && Run(s3, r3) == s4 && Run(s2, r2) == s4 && Run(s1, r1) == s4;
  }

  lemma {:induction false} OneMoreStep(s: Sending, run: seq<Event>, e: Event)
    requires AllEnabled(s, run) && Enabled(Run(s, run), e)
    ensures AllEnabled(s, run + [e]) && Run(s, run + [e]) == Step(Run(s, run), e)
    decreases |run|
  {
    hide Step, Enabled;
    if run == [] {
      assert [] + [e] == [e] && [e][1..] == [];
      assert AllEnabled(Step(s, e), []) && Run(Step(s, e), []) == Step(s, e);
    } else {
      OneMoreStep(Step(s, run[0]), run[1..], e);
      assert (run + [e])[1..] == run[1..] + [e];
    }
  }

  /** An album of two files, one uploaded and the other one failed: nothing is on its way, and it is not sent. */
  lemma FailedUploadStopsTheAlbum()
    ensures var run := [Start(7, 2, 0), Load(7, 0, "a"), Load(7, 1, "b"), Upload(1, 5, 6), UploadFailed(2)];
            && AllEnabled(START, run)
            && var s := Run(START, run);
               && LostItem(s, 7, 2) && 7 !in s.stalled && NothingOnItsWay(s, 7)
               && s.uploads == {} && s.submitted == []
  {
    hide Step, Enabled, WasSubmitted;
    var start := [Start(7, 2, 0), Load(7, 0, "a"), Load(7, 1, "b"), Upload(1, 5, 6)];
    TwoStarted();
    OneLoaded();
    BothLoaded();
    OneUploaded();
    FourSteps(start, TWO_FILES, ONE_LOADED, BOTH_LOADED, ONE_UPLOADED);
    OtherFailed();
    OneMoreStep(START, start, UploadFailed(2));
    assert start + [UploadFailed(2)]
        == [Start(7, 2, 0), Load(7, 0, "a"), Load(7, 1, "b"), Upload(1, 5, 6), UploadFailed(2)];
  }

  function AlbumOf(a: Item, b: Item): map<Group, Album> { map[7 := Album([a, b], 0, false)] }

  const TWO_FILES := START.(albums := AlbumOf(Item(0, None), Item(0, None)), used := {7})

  const ONE_LOADED := TWO_FILES.(albums := AlbumOf(Item(1, None), Item(0, None)), lastId := 1, uploads := {1},
                                 messages := map[1 := Message(7, "a")])

  const BOTH_LOADED := ONE_LOADED.(albums := AlbumOf(Item(1, None), Item(2, None)), lastId := 2, uploads := {1, 2},
                                   messages := map[1 := Message(7, "a"), 2 := Message(7, "b")])

  const ONE_UPLOADED := BOTH_LOADED.(albums := AlbumOf(Item(1, Some(Media(5, 6, "a"))), Item(2, None)), uploads := {2})

  lemma TwoStarted()
    ensures Enabled(START, Start(7, 2, 0)) && Step(START, Start(7, 2, 0)) == TWO_FILES
  {
    assert seq(2, _ => Item(0, None)) == [Item(0, None), Item(0, None)];
  }

  lemma OneLoaded()
    ensures Enabled(TWO_FILES, Load(7, 0, "a")) && Step(TWO_FILES, Load(7, 0, "a")) == ONE_LOADED
  {
    assert [Item(0, None), Item(0, None)][0 := Item(1, None)] == [Item(1, None), Item(0, None)];
    assert Loaded(TWO_FILES, 7, 0, "a").albums == ONE_LOADED.albums;
  }

  lemma BothLoaded()
    ensures Enabled(ONE_LOADED, Load(7, 1, "b")) && Step(ONE_LOADED, Load(7, 1, "b")) == BOTH_LOADED
  {
    assert [Item(1, None), Item(0, None)][1 := Item(2, None)] == [Item(1, None), Item(2, None)];
    assert Loaded(ONE_LOADED, 7, 1, "b").albums == BOTH_LOADED.albums;
    assert Loaded(ONE_LOADED, 7, 1, "b").messages == BOTH_LOADED.messages;
  }

  lemma OneUploaded()
    ensures Enabled(BOTH_LOADED, Upload(1, 5, 6)) && Step(BOTH_LOADED, Upload(1, 5, 6)) == ONE_UPLOADED
  {
    hide SendIfReady;
    var items := [Item(1, None), Item(2, None)];
    assert IndexOf(items, 1) == 0;
    assert items[0 := Item(1, Some(Media(5, 6, "a")))] == ONE_UPLOADED.albums[7].items;
    assert Filled(BOTH_LOADED, 1, 5, 6, 7, 0).albums == ONE_UPLOADED.albums;
    assert BOTH_LOADED.uploads - {1} == {2} && BOTH_LOADED.stalled - {7} == {};
    WaitsFor(ONE_UPLOADED, 7, 1);
  }

  lemma OtherFailed()
    ensures Enabled(ONE_UPLOADED, UploadFailed(2))
    ensures var s := Step(ONE_UPLOADED, UploadFailed(2));
            && LostItem(s, 7, 2) && 7 !in s.stalled && NothingOnItsWay(s, 7) && s.uploads == {} && s.submitted == []
  {
    var items := ONE_UPLOADED.albums[7].items;
    assert items[1] == Item(2, None) && items[1] in items;
  }
}
