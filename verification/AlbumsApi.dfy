/** The album code of `ApiWrap` and `SendingAlbum` as it changes the album in place. */
module AlbumsApi {
  import opened Albums
  import opened Options

  lemma {:induction false} IndexOfIs(items: seq<Item>, id: MessageId, i: nat)
    requires i <= |items| && (i < |items| ==> items[i].id == id)
    requires forall k | 0 <= k < i :: items[k].id != id
    ensures IndexOf(items, id) == i
  {
    if i > 0 {
      IndexOfIs(items[1..], id, i - 1);
    }
  }

  class AlbumsApi {
    var albums: map<Group, Album>
    var messages: map<MessageId, Message>
    var submitted: seq<Submission>
    var lastId: MessageId
    ghost var uploads: set<MessageId>
    ghost var used: set<Group>
    ghost var stalled: set<Group>
    ghost var lost: set<MessageId>

    constructor ()
      ensures State() == START
    {
      albums, messages, submitted, lastId, uploads, used, stalled, lost := map[], map[], [], 0, {}, {}, {}, {};
    }

    ghost function State(): Sending
      reads this
    {
      Sending(albums, messages, uploads, lastId, used, submitted, stalled, lost, false)
    }

    /** `sendFiles`: an item for every file */
    method SendFiles(group: Group, files: nat, price: int)
      modifies this`albums, this`used
      ensures State() == Started(old(State()), group, files, price)
    {
      var items: seq<Item> := [];
      for i := 0 to files
        invariant items == seq(i, _ => Item(0, None))
      {
        items := items + [Item(0, None)];
      }
      albums := albums[group := Album(items, price, false)];
      used := used + {group};
    }

    method FindItem(items: seq<Item>, id: MessageId) returns (i: nat)
      ensures i == IndexOf(items, id)
    {
      i := 0;
      while i < |items| && items[i].id != id
        invariant i <= |items|
        invariant forall k | 0 <= k < i :: items[k].id != id
      {
        i := i + 1;
      }
      IndexOfIs(items, id, i);
    }

    /** `sendAlbumIfReady` */
    method SendAlbumIfReady(group: Group)
      requires group in albums
      modifies this`albums, this`submitted
      ensures State() == SendIfReady(old(State()), group)
    {
      var album := albums[group];
      if album.sent {
        return;
      }
      if album.items == [] {
        albums := albums - {group};
        return;
      }
      var sample := false;
      var medias: seq<Media> := [];
      for i := 0 to |album.items|
        invariant |medias| == i && forall k | 0 <= k < i :: album.items[k].media == Some(medias[k])
        invariant sample <==> exists k :: 0 <= k < i && album.items[k].id in messages
      {
        if album.items[i].media.None? {
          assert album.items[i] in album.items;
          return;
        } else if !sample {
          sample := album.items[i].id in messages;
        }
        medias := medias + [album.items[i].media.value];
      }
      SampleFound(album.items, messages);
      AllMedias(album.items, medias);
      if !sample {
        albums := albums - {group};
      } else if album.price > 0 {
        albums := albums[group := album.(sent := true)];
        submitted := submitted + [Submission(group, Paid, medias)];
      } else if |medias| < 2 {
        submitted := submitted + [Submission(group, Single, medias)];
        albums := albums - {group};
      } else {
        albums := albums[group := album.(sent := true)];
        submitted := submitted + [Submission(group, Multi, medias)];
      }
    }

    /** `fillMedia`; the assertions in it are what is required. */
    method FillMedia(group: Group, id: MessageId, upload: nat, randomId: nat)
      requires id in messages && group in albums
      requires IndexOf(albums[group].items, id) < |albums[group].items|
      requires albums[group].items[IndexOf(albums[group].items, id)].media == None
      modifies this`albums
      ensures var album := old(albums)[group];
              albums == old(albums)[group := album.(items := WithMedia(album.items, id,
                                                               Media(upload, randomId, messages[id].text)))]
    {
      var album := albums[group];
      var i := FindItem(album.items, id);
      assert album.items[i].media.None?;
      var media := Media(upload, randomId, messages[id].text);
      albums := albums[group := album.(items := album.items[i := album.items[i].(media := Some(media))])];
    }

    /** The answer to an upload; the album and the item are found. */
    method SendAlbumWithUploaded(id: MessageId, upload: nat, randomId: nat)
      requires Inv(State()) && id in uploads
      modifies this`albums, this`submitted, this`uploads, this`stalled
      ensures State() == Uploaded(old(State()), id, upload, randomId)
      ensures Inv(State())
    {
      hide Inv, SendIfReady, IndexOf;
      UploadedKeepsInv(State(), id, upload, randomId);
      if id in messages {
        UploadFindsItem(State(), id);
        var group := messages[id].group;
        assert group in albums;
        uploads, stalled := uploads - {id}, stalled - {group};
        FillMedia(group, id, upload, randomId);
        SendAlbumIfReady(group);
      } else {
        uploads := uploads - {id};
      }
    }

    /** An upload failed: the fail handler is empty, so that only the upload is gone. */
    ghost method UploadMediaFailed(id: MessageId)
      requires Inv(State()) && id in uploads
      modifies this`uploads, this`lost
      ensures State() == UploadLost(old(State()), id)
      ensures Inv(State())
    {
      UploadLostKeepsInv(State(), id);
      uploads, lost := uploads - {id}, lost + {id};
    }

    /** `refreshMediaCaption` of the first item */
    method RefreshMediaCaption(items: seq<Item>, text: string) returns (updated: seq<Item>)
      requires items != []
      ensures updated == Recaptioned(items, text)
    {
      updated := items;
      if updated[0].media.Some? {
        updated := updated[0 := updated[0].(media := Some(updated[0].media.value.(caption := text)))];
      }
    }

    /** `removeItem` */
    method RemoveAlbumItem(group: Group, id: MessageId)
      requires id in messages && group in albums
      requires IndexOf(albums[group].items, id) < |albums[group].items|
      modifies this`albums, this`messages
      ensures State() == RemoveItem(old(State()), group, IndexOf(old(albums)[group].items, id), old(messages)[id].text)
    {
      hide IndexOf, Recaptioned;
      var album := albums[group];
      var i := FindItem(album.items, id);
      var moveCaption := |album.items| > 1 && i == 0;
      var items := album.items[..i] + album.items[i + 1..];
      if moveCaption {
        var caption := messages[id].text;
        var firstId := items[0].id;
        if firstId in messages {
          var first := messages[firstId];
          var text := if first.text == "" then caption else first.text + "\n" + caption;
          messages := messages[firstId := first.(text := text)];
          items := RefreshMediaCaption(items, text);
        }
      }
      albums := albums[group := album.(items := items)];
    }

    /** The answer to a send of several files, or its failure: the album is taken out. */
    method AlbumAnswered(group: Group)
      modifies this`albums
      ensures State() == Answered(old(State()), group)
    {
      albums := albums - {group};
    }

    /** The answer to a paid send: the local messages of the album are destroyed. */
    method PaidAlbumAnswered(group: Group)
      modifies this`albums, this`messages
      ensures State() == PaidAnswered(old(State()), group)
    {
      if group !in albums {
        return;
      }
      var items := albums[group].items;
      albums := albums - {group};
      for i := 0 to |items|
        invariant albums == old(albums) - {group}
        invariant messages == old(messages) - (set item | item in items[..i] :: item.id)
      {
        assert items[..i + 1] == items[..i] + [items[i]];
        messages := messages - {items[i].id};
        assert messages == old(messages) - (set item | item in items[..i + 1] :: item.id);
      }
      assert items[..|items|] == items;
      assert messages == old(messages) - (set item | item in items :: item.id);
    }

    /** A sending message is destroyed: `cancelLocalItem`, and then it is unregistered. */
    method SendAlbumWithCancelled(id: MessageId)
      requires Inv(State()) && id in messages
      modifies this`albums, this`messages, this`submitted, this`stalled
      ensures State() == Cancelled(old(State()), id)
      ensures Inv(State())
    {
      hide Inv, SendIfReady, RemoveItem, IndexOf;
      CancelledKeepsInv(State(), id);
      var group := messages[id].group;
      if group in albums {
        CancelFindsItem(State(), id);
        stalled := stalled - {group};
        RemovedKeepsAlbum(old(State()), group, IndexOf(albums[group].items, id), messages[id].text);
        RemoveAlbumItem(group, id);
        SendAlbumIfReady(group);
      }
      messages := messages - {id};
    }
  }

  lemma SampleFound(items: seq<Item>, messages: map<MessageId, Message>)
    ensures HasSample(items, messages) <==> exists k :: 0 <= k < |items| && items[k].id in messages
  {}

  lemma AllMedias(items: seq<Item>, medias: seq<Media>)
    requires |medias| == |items| && forall k | 0 <= k < |items| :: items[k].media == Some(medias[k])
    ensures Complete(items) && Medias(items) == medias
  {}
}
