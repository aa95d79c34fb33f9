# Models of Telegram Desktop: algorithms and request protocols

This Dafny project models the parts of Telegram Desktop that carry real algorithms or protocol state, and proves what
they promise. Code that changes state in the original is a class or a method with loops here, proved against a
specification function or transition; the properties are lemmas about those, over all inputs and all runs.

- **Hashes.** `Sha1Spec` is SHA-1 as FIPS 180-4 defines it, `Sha1` the hand-written one of the update packer;
  `ApiHash` is the rolling 64-bit hash of cached lists.
- **Packer paths.** `PackerFiles`: the loop that expands directories, with its termination.
- **Meshes.** `MeshFormat`, `MeshText`, `MeshObj`, `MeshRoundTrip` and `MeshTools`: the two programs between .obj text
  and .binobj bytes, and what survives a trip through both.
- **Requests of `ApiWrap`.** `MessageData`, `WebPages` and `WebPageRuns`, `StickerSets`, `StickerSaves` and `StickersApi`, `Forward`,
  `Albums` and `AlbumsApi`, `Dialogs` and `DialogsApi`. A protocol is a state with transition functions: the fields of
  the class, the requests in flight, and a history. Its methods are proved to make exactly these transitions.
- **Other classes of the API.** `InviteLinks` and `InviteLinksApi`, `SearchMerged`, `PeerSearch` and `PeerSearchApi`.
- **The web-app page.** `ShellFrames`: the queue of events for a frame that reloads; `Ripple`: its colour arithmetic.

Requests get fresh positive ids, are answered asynchronously and at most once, and a cancelled one never calls back.
Callbacks that call back into a class are further events of a run; in `MessageData` they run inside the reply.
A colour is modelled over the real numbers, and a mesh float as its 32 bits: printing with nine significant digits and
parsing is assumed to give back every float that is not a NaN, and the quiet NaN with sign zero for every NaN.

## Where the code does less than it promises

Each of these has a lemma with the exact condition or the failing run.

- The packer's SHA-1 writes only the low length word: its padding is the standard's exactly below 2^29 bytes
  (`Sha1.PackerPadding`), and below it the digest is SHA-1 (`Sha1.PackerDigest`).
- The round trip of the mesh tools is not byte-identical for tables with incomplete rows, and for NaNs other than the
  one that "nan" parses to: `MeshRoundTrip.DecodeThenEncode` and `MeshRoundTrip.EncodeDecodeEncode` are the conditions,
  `MeshRoundTrip.IncompleteRowIsLost` and `MeshRoundTrip.NegativeNaNIsLost` inputs.
- The price of one request of a forward is cut to 32 bits, so that a large one can be free, or even raise what remains
  of the approved stars (`Forward.WrappedPrices`, `Forward.WrappedForwards`). The forward pays the right total exactly
  if the price of every run fits, or the cut prices still cover what was approved (`Forward.PaysTheTotalIff`).
- An album whose last missing file cannot be loaded stays unsent with nothing missing, until one of its items is
  cancelled (`Albums.FailedFileStallsTheAlbum`, `Albums.StaysUnsent`, `Albums.CancelReleases`). So does an album with an
  item whose upload failed, until that item is cancelled (`Albums.FailedUploadStopsTheAlbum`, `Albums.LostStaysUnsent`).
  An album of which nothing is on its way is unsent in these two cases only (`Albums.UnsentIff`).
- A "not modified" answer to a dialogs request, which the server has no reason to give for a zero hash, would stop the
  load for good (`Dialogs.NotModifiedSticks`, `Dialogs.StuckForGood`).
- `setMyPermanent` inserts a link without counting it (`InviteLinks.SetPermanentCountsIff`, `InviteLinks.PermanentLinkIsNotCounted`),
  and a first list with two live permanent links leaves one where the lookup does not see it
  (`InviteLinks.LoadKeepsInvIff`, `InviteLinks.SecondPermanentLinkIsLost`).
- A deletion of all revoked links that fails is never tried again, and its callbacks wait for ever
  (`InviteLinksApi.FailedDeletionWaits`, `InviteLinksApi.NeverDeletedAgain`, `InviteLinksApi.RequestsAreRecorded`).
- A page whose request failed is not asked for again until it is cleared (`WebPageRuns.FailedIsNotAskedAgain`,
  `WebPageRuns.FailureAbandonsItsPages`).
- The offset behind a page of dialogs can have the date of one dialog and the place of another
  (`DialogsApi.OffsetIsOneDialogsIff`, `DialogsApi.OffsetOfTwoDialogs`), and a failed request of the main list leaves the
  block by date stale (`Dialogs.FailureIgnoresLimit`).
- A merged search with an empty token never reports its total (`SearchMerged.FirstPagesAreReportedIff`).
- `PeerSearch` without sponsored requests never answers a query of four characters or more, and its callback is never
  called (`PeerSearch.LongQueryWaits`); every other requested query is answered (`PeerSearch.AnsweredIff`).

## Model

| member | source | states |
|---|---|---|
| `ApiHash.HashUpdate` | Telegram/SourceFiles/api/api_hash.h:40-45 | The sequence of xor-shifts and the addition compute one step of the fold, the one proved invertible below. |
| `ApiHash.UnmixMix` | Telegram/SourceFiles/api/api_hash.h:41-43 | The three xor-shifts lose nothing: an explicit inverse undoes them, for every 64-bit state. |
| `ApiHash.MixUnmix` | Telegram/SourceFiles/api/api_hash.h:41-43 | The inverse is one from the other side too, so the xor-shifts are a bijection. |
| `ApiHash.UpdateIsBijectiveInState` | Telegram/SourceFiles/api/api_hash.h:40-45 | For each value two states are updated to the same state if and only if they are the same, and every state is reached. |
| `ApiHash.UpdateIsBijectiveInValue` | Telegram/SourceFiles/api/api_hash.h:40-45 | From each state exactly one value leads to a given hash, and it is the difference formula. |
| `ApiHash.CountHash` | Telegram/SourceFiles/api/api_hash.h:63-70 | The loop over the range returns the fold of all its values from zero. |
| `ApiHash.FoldConcat` | Telegram/SourceFiles/api/api_hash.h:63-70 | Hashing a range continues from the hash of any front part. |
| `ApiHash.FoldIsInjectiveInState` | Telegram/SourceFiles/api/api_hash.h:63-70 | A common tail of any length neither hides nor invents a difference of states. |
| `ApiHash.CommonTail` | Telegram/SourceFiles/api/api_hash.h:63-70 | Two ranges with a common tail collide exactly when what precedes the tail collides, at any lengths. |
| `ApiHash.OneChangeIsDetected` | Telegram/SourceFiles/api/api_hash.h:36-70 | Equal-length ranges that differ in exactly one position, anywhere, always have different hashes. |
| `ApiHash.MissingValueIsDetermined` | Telegram/SourceFiles/api/api_hash.h:36-70 | All other values and the hash determine the value at a position: it exists and is unique. |
| `ApiHash.TwoChangesCanCancel` | Telegram/SourceFiles/api/api_hash.h:36-70 | The guarantee stops at one change: after any change of one value the next one can be chosen so that the hash stays. |
| `ApiHash.LeadingZeroIsInvisible` | Telegram/SourceFiles/api/api_hash.h:36-70 | The guarantee needs equal lengths: a leading zero never changes the hash. |
| `ApiHash.WideningIsInjective` | Telegram/SourceFiles/api/api_hash.h:47-57 | The conversions of signed and unsigned 32-bit values keep different values different. |
| `ApiHash.OneNarrowChangeIsDetected` | Telegram/SourceFiles/api/api_hash.h:47-70 | The single-change guarantee holds for ranges of signed and of unsigned 32-bit values. |
| `ApiHash.WideningIs` | Telegram/SourceFiles/api/api_hash.h:47-57 | A 32-bit value keeps its number, a negative one modulo 2^64. |
| `ApiHash.KnownHashes` | Telegram/SourceFiles/api/api_hash.h:36-70 | Short ranges with hashes worked out by hand, in which each of the three shifts shows. |
| `Sha1.DisjunctionsAreExclusive` | Telegram/SourceFiles/_other/packer.cpp:77-81 | The choice and majority written with or are the Ch and Maj of FIPS 180-4 section 4.1.1, which use exclusive or. |
| `Sha1.NextRound` | Telegram/SourceFiles/_other/packer.cpp:62-75 | One swap of the five variables is one step of section 6.1.2, with the function and the constant of its round. |
| `Sha1.ExtensionIsSchedule` | Telegram/SourceFiles/_other/packer.cpp:72-75 | The word written just before its round is the message schedule word of section 6.1.2, read from the words before it. |
| `Sha1.ShiftSwap` | Telegram/SourceFiles/_other/packer.cpp:62-70 | The first macro, run on the word buffer, makes one round on a word that is there, with all indices in bounds. |
| `Sha1.ShiftShiftSwap` | Telegram/SourceFiles/_other/packer.cpp:72-75 | The second macro extends the schedule by one word and makes one round. |
| `Sha1.Sha1PartHash` | Telegram/SourceFiles/_other/packer.cpp:59-91 | The five loops over the lazily extended buffer compute the compression of FIPS 180-4 on the block in the first sixteen words. |
| `Sha1.LoadBlock` | Telegram/SourceFiles/_other/packer.cpp:101-106 | The byte loop fills sixteen words with the next 64 bytes, big-endian. |
| `Sha1.OrByteReplaces` | Telegram/SourceFiles/_other/packer.cpp:113-116 | Or-ing a byte at a position of the zeroed buffer sets exactly that byte. |
| `Sha1.LoadTail` | Telegram/SourceFiles/_other/packer.cpp:110-116 | The rest of the message, a one bit and zeros are in the buffer, at the right byte positions. |
| `Sha1.ExtendedTail` | Telegram/SourceFiles/_other/packer.cpp:110-121 | The rest with the one bit and the zeros is the end of the padded message of section 5.1.1. |
| `Sha1.PaddedTail` | Telegram/SourceFiles/_other/packer.cpp:110-122 | One block behind the full ones, or two when 56 or more bytes are left, make the padded message. |
| `Sha1.TailEndsInZeros` | Telegram/SourceFiles/_other/packer.cpp:117-121 | With fewer than 56 bytes left the two length words are free. |
| `Sha1.HashFullBlocks` | Telegram/SourceFiles/_other/packer.cpp:100-108 | After the block loop the state is the hash of all full blocks, and fewer than 64 bytes are left. |
| `Sha1.HashTail` | Telegram/SourceFiles/_other/packer.cpp:110-122 | The one or two tail blocks complete the hash of the padded message. |
| `Sha1.StoreDigest` | Telegram/SourceFiles/_other/packer.cpp:124-128 | The output loop writes the five words as twenty big-endian bytes and nothing else. |
| `Sha1.HashSha1` | Telegram/SourceFiles/_other/packer.cpp:95-131 | For every length below 2^29 the twenty bytes written are the SHA-1 digest of FIPS 180-4; every length below 2^32 - 64 is covered up to the length word. |
| `Sha1.PackerPadding` | Telegram/SourceFiles/_other/packer.cpp:121 | Writing only the low length word gives the padded words of the standard if and only if the message is shorter than 2^29 bytes. |
| `Sha1.PackerDigest` | Telegram/SourceFiles/_other/packer.cpp:95-131 | Below 2^29 bytes the packer computes the digest of the standard. |
| `PackerFiles.ExpandPaths` | Telegram/SourceFiles/_other/packer.cpp:210-233 | The restarting loop ends on every finite forest; it succeeds exactly if every file it reaches is readable, and then leaves exactly the multiset of non-hidden files under the paths and no directory. |
| `PackerFiles.Scan` | Telegram/SourceFiles/_other/packer.cpp:213-233 | One scan replaces the first directory or erases the first hidden file, which keeps what is packed and shrinks the forest, gives up at an unreadable file, or finds a list of visible files. |
| `PackerFiles.Expanded` | Telegram/SourceFiles/_other/packer.cpp:216-223 | Replacing a directory by its listed entries keeps the files under all paths and makes the forest smaller. |
| `PackerFiles.Erased` | Telegram/SourceFiles/_other/packer.cpp:227-231 | Erasing a hidden file keeps the packed files and makes the forest smaller. |
| `PackerFiles.UnreadableAt` | Telegram/SourceFiles/_other/packer.cpp:224-226 | An unreadable file in the list means that not all reached files are readable. |
| `PackerFiles.CountSplitAt` | Telegram/SourceFiles/_other/packer.cpp:213-223 | The number of nodes of a list splits at every position; it is the measure of the loop. |
| `PackerFiles.FilesListed` | Telegram/SourceFiles/_other/packer.cpp:221-222 | The entries that a directory lists, without links and hidden ones, hold exactly its files. |
| `PackerFiles.FilesAreReached` | Telegram/SourceFiles/_other/packer.cpp:216-223 | The files under a path are those that are reached from it through entries that are neither links nor hidden. |
| `MeshFormat.ReadWritten` | Telegram/cmake/binobj2obj.py:31-52 | Reading back the bytes written for a mesh gives the same mesh. |
| `MeshFormat.WriteRead` | Telegram/cmake/obj2binobj.py:60-69 | Writing back what was read from accepted bytes gives the same bytes, so there is one file for a mesh. |
| `MeshFormat.Layout` | Telegram/cmake/obj2binobj.py:9-19 | The written file is laid out as its description says: each count and each value at its own offset, positions, uvs, normals, then corners of three words, and nothing behind. |
| `MeshFormat.BytesOrderAsNumbers` | Telegram/cmake/obj2binobj.py:14 | Words are big-endian: their bytes compare as the numbers do. |
| `MeshFormat.ReadIffWritten` | Telegram/cmake/binobj2obj.py:31-55 | The reader accepts bytes as a mesh if and only if the writer writes them for it: counts, tables, signed indices and the end of the file. |
| `MeshText.LinesOfPrinted` | Telegram/cmake/obj2binobj.py:35-36 | The lines of a printed text are the printed lines. |
| `MeshText.WordsOfJoined` | Telegram/cmake/obj2binobj.py:37 | Splitting a line at white space gives back the words that were joined with single spaces. |
| `MeshText.FieldsOfThree` | Telegram/cmake/obj2binobj.py:50 | Splitting a vertex at its slashes gives its three fields. |
| `MeshText.ParseIntOfDecimal` | Telegram/cmake/obj2binobj.py:52-54 | A decimal integer of any size and sign parses back to itself and is one field of one word. |
| `MeshText.SpacesAndBreaks` | Telegram/cmake/obj2binobj.py:36-37 | The characters that split() cuts at, and those that end a line. |
| `MeshText.Underscores` | Telegram/cmake/obj2binobj.py:52-54 | An underscore between digits is skipped; one at either end or doubled is an error. |
| `MeshText.Signs` | Telegram/cmake/obj2binobj.py:52-54 | One sign may stand in front of the digits. |
| `MeshObj.FanTriangles` | Telegram/cmake/obj2binobj.py:56-58 | A polygon of n vertices gives 3(n - 2) corners, none below three, and each triangle is its first vertex with two neighbours. |
| `MeshObj.FanOfTriangle` | Telegram/cmake/obj2binobj.py:56-58 | The fan of a triangle is the triangle. |
| `MeshObj.ParseLinesAppend` | Telegram/cmake/obj2binobj.py:36-58 | Parsing a text goes on from the mesh of its front lines. |
| `MeshObj.ParsePrintedRow` | Telegram/cmake/binobj2obj.py:63-74 | A printed v, vt or vn line parses to its own values, with every NaN the canonical one. |
| `MeshObj.ParsePrintedFace` | Telegram/cmake/binobj2obj.py:75-80 | A printed f line parses to its own three corners, for all signed 32-bit indices and beyond. |
| `MeshObj.VertexOfPosition` | Telegram/cmake/obj2binobj.py:48-55 | A vertex of one field is its position, counted from one, with uv and normal left out as -1. |
| `MeshObj.VertexOfTwo` | Telegram/cmake/obj2binobj.py:48-55 | A vertex of two fields has no normal. |
| `MeshObj.VertexWithoutUv` | Telegram/cmake/obj2binobj.py:48-55 | A vertex with an empty middle field has no uv. |
| `MeshObj.VertexOfMore` | Telegram/cmake/obj2binobj.py:50 | Three fields are read, and what is behind a third slash is ignored. |
| `MeshObj.VertexFailsIff` | Telegram/cmake/obj2binobj.py:50-55 | A vertex is malformed exactly if one of its first three fields is neither empty nor an integer. |
| `MeshObj.OtherLinesAreSkipped` | Telegram/cmake/obj2binobj.py:38-40 | Empty lines, comments and lines of other tags change nothing. |
| `MeshObj.RowGoesToItsTable` | Telegram/cmake/obj2binobj.py:41-46 | A v, vt or vn line adds three, two or three values to its table, and what is behind them is ignored. |
| `MeshRoundTrip.ParsePrinted` | Telegram/cmake/binobj2obj.py:57-80 | The text of a mesh parses to its whole rows and triangles, with every NaN canonical. |
| `MeshRoundTrip.NormalSame` | Telegram/cmake/binobj2obj.py:63-80 | A mesh survives its text if and only if its tables have whole rows and triangles and no other NaN than the canonical one. |
| `MeshRoundTrip.DecodeThenEncode` | Telegram/cmake/binobj2obj.py:9-20 | Encoding the decoded text of any accepted file works, and gives the identical bytes if and only if the counts are multiples of 3, 2, 3 and 3 and every NaN is canonical. |
| `MeshRoundTrip.ParsedIsShaped` | Telegram/cmake/obj2binobj.py:41-58 | Every parsed text, with polygons of any size and fields left out, has tables of whole rows and triangles. |
| `MeshRoundTrip.EncodeDecodeEncode` | Telegram/cmake/obj2binobj.py:35-69 | For every text that can be encoded, decoding and encoding again works, and gives the same file if and only if no value is a non-canonical NaN. |
| `MeshRoundTrip.SecondTripIsStable` | Telegram/cmake/binobj2obj.py:9-20 | A second trip through text never changes a byte, for any accepted file. |
| `MeshRoundTrip.NegativeNaNIsLost` | Telegram/cmake/binobj2obj.py:57 | A text with the value -nan is encoded, decoded and encoded to different bytes. |
| `MeshRoundTrip.IncompleteRowIsLost` | Telegram/cmake/binobj2obj.py:63-67 | A file with a single value in its table of positions comes back as the empty mesh. |
| `MeshRoundTrip.BitsAreFaithful` | Telegram/cmake/binobj2obj.py:57 | A number format that meets the assumption on printed floats exists. |
| `MeshTools.Reader.ReadInt` | Telegram/cmake/binobj2obj.py:34-38 | The integer at the offset is read as signed big-endian, and the offset moves behind it; a short file fails. |
| `MeshTools.Reader.ReadFloats` | Telegram/cmake/binobj2obj.py:40-44 | The counted floats at the offset are read, or it fails for a negative count or a short file. |
| `MeshTools.Reader.ReadCorners` | Telegram/cmake/binobj2obj.py:49-52 | The corners are read through the running offset; a negative count leaves the offset before the end, so that the file is refused. |
| `MeshTools.Reader.ReadCornerList` | Telegram/cmake/binobj2obj.py:50-51 | The comprehension reads one corner behind another, or fails on a short file. |
| `MeshTools.DecodeFile` | Telegram/cmake/binobj2obj.py:26-82 | The program with its running offset gives the specified text, and fails exactly on the files the specification refuses. |
| `MeshTools.WriteTriples` | Telegram/cmake/binobj2obj.py:63-74 | The loop by index prints exactly the whole rows of three values. |
| `MeshTools.WritePairs` | Telegram/cmake/binobj2obj.py:68-69 | The loop by index prints exactly the whole rows of two values. |
| `MeshTools.WriteFaces` | Telegram/cmake/binobj2obj.py:75-80 | The loop by index prints exactly the whole triangles. |
| `MeshTools.ReadFace` | Telegram/cmake/obj2binobj.py:48-55 | The loop over the vertices of a face parses them all or fails. |
| `MeshTools.Triangulate` | Telegram/cmake/obj2binobj.py:56-58 | The loop appends exactly the fan of the face. |
| `MeshTools.ReadObj` | Telegram/cmake/obj2binobj.py:35-58 | The line loop parses the text, skips comments and unknown tags, and fails exactly on malformed lines. |
| `MeshTools.PackMesh` | Telegram/cmake/obj2binobj.py:60-69 | The writer packs counts, floats and corners, and fails exactly when a count or an index has more than 32 bits. |
| `MeshTools.EncodeText` | Telegram/cmake/obj2binobj.py:25-71 | The whole program gives the specified bytes for a text, or fails as specified. |
| `MeshTools.Reader.ReadTable` | Telegram/cmake/binobj2obj.py:46-48 | A table is read as its count and then its floats. |
| `MeshTools.WriteObj` | Telegram/cmake/binobj2obj.py:57-80 | The whole text is written: comments, positions, uvs, normals and faces, in this order. |
| `MeshTools.ReadLine` | Telegram/cmake/obj2binobj.py:37-58 | One line is parsed by its tag, as specified. |
| `MeshTools.PackTable` | Telegram/cmake/obj2binobj.py:61-66 | A count and its floats are packed behind what was written. |
| `MeshTools.PackCorners` | Telegram/cmake/obj2binobj.py:67-69 | The corners are packed behind their count, and an index of more than 32 bits fails. |
| `MessageData.RequestKeepsInv` | Telegram/SourceFiles/apiwrap.cpp:628-641 | Asking for message data keeps the invariant: tables sorted by id, each entry carried by the request in flight that asks for it or a resolve queued, callbacks accounted for. |
| `MessageData.ResolveKeepsInv` | Telegram/SourceFiles/apiwrap.cpp:673-727 | Resolving keeps the invariant, whichever targets have something to ask for. |
| `MessageData.ReplyKeepsInv` | Telegram/SourceFiles/apiwrap.cpp:729-759 | A reply or a failure keeps the invariant, even if its callbacks ask for more data. |
| `MessageData.RunKeepsInv` | Telegram/SourceFiles/apiwrap.cpp:628-759 | After every event of every run the invariant holds, with the registered callbacks being the called and the pending ones as multisets. |
| `MessageData.NoMessageIsAskedTwice` | Telegram/SourceFiles/apiwrap.cpp:643-654 | Each message id of a target is asked for by at most one request in flight. |
| `MessageData.UncarriedIsQueued` | Telegram/SourceFiles/apiwrap.cpp:638-640 | An entry without a request id has a resolve queued. |
| `MessageData.ReplyInvokesItsBatch` | Telegram/SourceFiles/apiwrap.cpp:736-758 | A reply calls exactly the callbacks of the entries its request carried, each as often as registered, and none of another target. |
| `MessageData.QuietMeansAllInvoked` | Telegram/SourceFiles/apiwrap.cpp:628-759 | When nothing is queued or in flight, nothing is pending, and the registered callbacks of every target are the called ones, as multisets. |
| `MessageData.CollectMessageIds` | Telegram/SourceFiles/apiwrap.cpp:643-654 | The loop collects exactly the ids without a request, in order. |
| `MessageData.AssignRequest` | Telegram/SourceFiles/apiwrap.cpp:691-696 | The loop writes the request id into exactly the entries it asks for. |
| `MessageData.EraseRequest` | Telegram/SourceFiles/apiwrap.cpp:736-752 | The erase-while-iterating loop removes exactly the entries of the request and moves all their callbacks out, in order. |
| `MessageData.MessageDataApi.RequestMessageData` | Telegram/SourceFiles/apiwrap.cpp:628-641 | The method changes the tables as the transition says. |
| `MessageData.MessageDataApi.ResolveMessageDatas` | Telegram/SourceFiles/apiwrap.cpp:673-727 | Every target with uncarried ids gets one fresh request for all of them, empty channels go, and nothing else changes. |
| `MessageData.MessageDataApi.FinalizeMessageDataRequest` | Telegram/SourceFiles/apiwrap.cpp:729-759 | The method, with callbacks that call back, is the reply transition. |
| `MessageData.RegisterIs` | Telegram/SourceFiles/apiwrap.cpp:628-637 | A registration leaves the entries of other ids alone; the entry of its id keeps its request and gets the given callback as its last one, and a new entry has no request and that callback alone. |
| `MessageData.RequestHolds` | Telegram/SourceFiles/apiwrap.cpp:628-641 | Behind a call the table has an entry for the id that holds the given callback, and one without a request has a resolve queued. |
| `MessageData.RegisteredIsGiven` | Telegram/SourceFiles/apiwrap.cpp:628-759 | At any time of any run the registered callbacks of a target are those that the calls gave, counted from the calls, the ones made by callbacks included. |
| `MessageData.QuietMeansAllGivenCalled` | Telegram/SourceFiles/apiwrap.cpp:628-759 | In a quiet state of a run every callback that was ever given was called, as often as it was given. |
| `MessageData.ReleasedInOrder` | Telegram/SourceFiles/apiwrap.cpp:736-752 | The callbacks of a reply are called entry by entry in the order of the table, each list in its own order. |
| `WebPages.IndicesAreInRange` | Telegram/SourceFiles/apiwrap.cpp:2491-2531 | Every channel index decoded from a negative temporary id is inside the vector of requests. |
| `WebPages.DecodingIsDirect` | Telegram/SourceFiles/apiwrap.cpp:2523-2535 | Decoding the temporary ids gives every newly due page the request of its own channel, or the one without a channel, and leaves the others. |
| `WebPages.WebPagesApi.FirstPass` | Telegram/SourceFiles/apiwrap.cpp:2469-2500 | The first pass marks the newly due pages with temporary ids and collects the ids of every group and the shortest wait. |
| `WebPages.WebPagesApi.ResolveWebPages` | Telegram/SourceFiles/apiwrap.cpp:2463-2539 | Both passes together are the direct assignment: afterwards no id is negative, each group with something due has one fresh request for exactly its ids, and the timer is set for the shortest wait. |
| `WebPages.WebPagesApi.ClearWebPageRequests` | Telegram/SourceFiles/apiwrap.cpp:2458-2461 | No page is pending and the timer is stopped. |
| `WebPages.WebPagesApi.GotWebPages` | Telegram/SourceFiles/apiwrap.cpp:2789-2807 | The reply removes exactly the entries of its request and marks its waiting pages as failed. |
| `WebPages.BatchIsItsGroup` | Telegram/SourceFiles/apiwrap.cpp:2502-2534 | The entries of the request of a group are exactly its newly due pages. |
| `WebPages.RemainingKeeps` | Telegram/SourceFiles/apiwrap.cpp:2794-2805 | All other entries stay, and stay distinct. |
| `WebPages.WebPagesApi.RequestWebPageDelayed` | Telegram/SourceFiles/apiwrap.cpp:2440-2449 | A waiting page is added once, and the timer is moved only forward. |
| `WebPages.WebPagesApi.ClearWebPageRequest` | Telegram/SourceFiles/apiwrap.cpp:2451-2456 | Exactly the page is removed, and the timer stops when none is left. |
| `WebPages.WebPagesApi.SendAll` | Telegram/SourceFiles/apiwrap.cpp:2502-2522 | One request without a channel, if needed, and one for each channel are sent, each recorded at its index. |
| `WebPages.WebPagesApi.SendChannel` | Telegram/SourceFiles/apiwrap.cpp:2512-2522 | The request of one channel is sent with exactly its ids and recorded at its index. |
| `WebPages.WebPagesApi.SecondPass` | Telegram/SourceFiles/apiwrap.cpp:2523-2535 | The second pass decodes every negative id, and every index is in range. |
| `WebPages.WebPagesApi.AskAll` | Telegram/SourceFiles/apiwrap.cpp:2463-2535 | Both passes: each group with something due has one fresh request, and each due page has the one of its group. |
| `WebPages.DirectAsks` | Telegram/SourceFiles/apiwrap.cpp:2471-2535 | A page without a request with pendingTill up to now and a message gets a fresh request for the channel of the message that holds its id; every other entry stays. |
| `WebPages.TimerOfShortestWait` | Telegram/SourceFiles/apiwrap.cpp:2495-2538 | The timer is set for the first page that still waits, at most for a day, and left alone if none waits. |
| `WebPages.WebPagesApi.SendAndDecode` | Telegram/SourceFiles/apiwrap.cpp:2502-2535 | The requests and the second pass give every due page the fresh request of its group, with exactly the ids of the group. |
| `WebPageRuns.ReplyRemovesItsBatch` | Telegram/SourceFiles/apiwrap.cpp:2440-2539 | Over every run a reply removes the entries of exactly the pages its request was sent for, without those that were cleared since. |
| `WebPageRuns.OneRequestForAPage` | Telegram/SourceFiles/apiwrap.cpp:2469-2535 | Over every run no page waits for two requests. |
| `WebPageRuns.FailedIsNotAskedAgain` | Telegram/SourceFiles/apiwrap.cpp:2469-2522 | Until it is cleared, a page whose request failed keeps that request and is asked for again in no run. |
| `WebPageRuns.FailureAbandonsItsPages` | Telegram/SourceFiles/apiwrap.cpp:2504-2521 | The pages that a failure leaves so are exactly those the request was sent for and that were not cleared. |
| `WebPageRuns.ResolveKeepsInv` | Telegram/SourceFiles/apiwrap.cpp:2463-2539 | Resolving gives each new request exactly its pages and leaves the pages of older ones. |
| `WebPageRuns.StepKeepsInv` | Telegram/SourceFiles/apiwrap.cpp:2440-2807 | Every call, reply and failure keeps it that a request without a reply is recorded in exactly the entries of its pages. |
| `StickerSets.SavedOrder` | Telegram/SourceFiles/apiwrap.cpp:1767-1801 | The stored order is the local order without the sets that are gone, and every set in it is stored and installed. |
| `StickerSets.InstalledIffInOrder` | Telegram/SourceFiles/apiwrap.cpp:1754-1801 | Among the remaining sets of the kind that are not archived, exactly those in the order are installed. |
| `StickerSets.RemainingSets` | Telegram/SourceFiles/apiwrap.cpp:1803-1815 | Every remaining set has a flag that keeps it, and sets of other kinds outside the order are untouched. |
| `StickerSets.InstallKeeps` | Telegram/SourceFiles/apiwrap.cpp:1768-1801 | Installing changes exactly the sets of the order: installed, unarchived unless removed, with an install date. |
| `StickerSets.RemovedState` | Telegram/SourceFiles/apiwrap.cpp:1708-1751 | A removed set is gone, or kept for another reason and not installed. |
| `StickerSets.RemovedIsUninstalled` | Telegram/SourceFiles/apiwrap.cpp:1672-1801 | A removed set outside the new order is not installed and not in the order after the save. |
| `StickerSets.NoRemovedStickerIsRecent` | Telegram/SourceFiles/apiwrap.cpp:1711-1718 | No sticker of a removed set is left among the recent ones, in whatever order the sets are removed. |
| `StickerSets.OthersStay` | Telegram/SourceFiles/apiwrap.cpp:1672-1752 | A set that is not among the removed ones is not changed by the removals. |
| `StickerSets.SavedOrderIsLocalOrder` | Telegram/SourceFiles/apiwrap.cpp:1767-1797 | The stored order comes from increasing positions of the local order, a stored set occurs as often in both, and if nothing is gone it is the local order itself. |
| `StickerSets.SavedSet` | Telegram/SourceFiles/apiwrap.cpp:1672-1815 | What a save makes of one set, by its flags: a removed one is reset and goes without another reason to stay, one of the order is installed, one of the kind outside it is not, and what no flag keeps goes. |
| `StickerSets.RemovedSet` | Telegram/SourceFiles/apiwrap.cpp:1672-1752 | The removals change one set in this way whatever their order and however often they name it. |
| `StickerSets.RecentAfter` | Telegram/SourceFiles/apiwrap.cpp:1672-1718 | A recent sticker stays exactly if the recent ones are not cleared and no removed stored set has it. |
| `StickerSets.RemovedPlace` | Telegram/SourceFiles/apiwrap.cpp:1737-1740 | The removal of a stored set that is not archived takes its first place out of the order. |
| `StickersApi.StickersApi.RemoveSet` | Telegram/SourceFiles/apiwrap.cpp:1672-1752 | One removal, with the erase loop over the recent stickers, changes the store as specified and sends an uninstall exactly for a stored set that is not archived. |
| `StickersApi.StickersApi.InstallSets` | Telegram/SourceFiles/apiwrap.cpp:1767-1801 | The install loop builds the order and the flags as specified and sends an install exactly for an archived set that is not removed. |
| `StickersApi.StickersApi.SaveStickerSets` | Telegram/SourceFiles/apiwrap.cpp:1580-1853 | A whole save leaves the specified store and the specified requests: all old ones cancelled, and the reorder call sent at once only if nothing else was. |
| `StickersApi.StickersApi.StickerSetDisenabled` | Telegram/SourceFiles/apiwrap.cpp:1639-1649 | The reply of an uninstall or install sends the reorder call exactly when it was the last one. |
| `StickersApi.StickersApi.CancelRequests` | Telegram/SourceFiles/apiwrap.cpp:1596-1599 | Every request of an earlier save is cancelled. |
| `StickersApi.StickersApi.ForgetRecent` | Telegram/SourceFiles/apiwrap.cpp:1711-1718 | The erase loop removes exactly the recent stickers of the set, and keeps the order of the others. |
| `StickersApi.StickersApi.RemoveFromOrder` | Telegram/SourceFiles/apiwrap.cpp:1737-1740 | The first place of the set in the order is removed, if there is one. |
| `StickersApi.StickersApi.ClearInstalled` | Telegram/SourceFiles/apiwrap.cpp:1754-1765 | The loop clears the installed flag of exactly the sets of the kind that are not archived. |
| `StickersApi.StickersApi.InstallSet` | Telegram/SourceFiles/apiwrap.cpp:1768-1801 | One entry of the order is skipped or installed as specified. |
| `StickersApi.StickersApi.Sweep` | Telegram/SourceFiles/apiwrap.cpp:1803-1815 | The erase loop removes exactly the sets that nothing keeps. |
| `StickersApi.StickersApi.SendOrder` | Telegram/SourceFiles/apiwrap.cpp:1603-1637 | The reorder call is sent with the captured order, unless that is too short. |
| `StickersApi.StickersApi.ReorderDone` | Telegram/SourceFiles/apiwrap.cpp:1622-1637 | The end of the reorder call clears its id. |
| `StickersApi.UninstallsIff` | Telegram/SourceFiles/apiwrap.cpp:1719-1735 | Uninstall requests are sent exactly if a stored set is removed that is not archived. |
| `StickersApi.InstallsIff` | Telegram/SourceFiles/apiwrap.cpp:1773-1793 | Install requests are sent exactly for an archived set of the order that is not to be removed. |
| `StickersApi.SendsNothingElseIff` | Telegram/SourceFiles/apiwrap.cpp:1603-1815 | A save has no other request in front of its reorder call exactly if it has nothing to uninstall and nothing to take out of the archive. |
| `StickerSaves.RunKeepsInv` | Telegram/SourceFiles/apiwrap.cpp:1580-1853 | Over every run of saves and replies only requests of the latest save are in flight, the reorder call never beside the others. |
| `StickerSaves.StepSends` | Telegram/SourceFiles/apiwrap.cpp:1603-1649 | A step sends at most one reorder call: of the latest save, with its own order, and with nothing else of it in flight. |
| `StickerSaves.LaterReordersAreOfLaterSaves` | Telegram/SourceFiles/apiwrap.cpp:1596-1599 | Once a later save has started, the reorder call of an earlier one is never sent. |
| `StickerSaves.QuietMeansReordered` | Telegram/SourceFiles/apiwrap.cpp:1603-1649 | Reorder calls belong to different saves; when all replies are in, the latest save has sent its own if and only if its order has at least two sets. |
| `StickerSaves.ReplyLands` | Telegram/SourceFiles/apiwrap.cpp:1639-1650 | A reply lands; the last one of a save with two sets or more sends the reorder call with the captured order. |
| `Dialogs.RunKeepsInv` | Telegram/SourceFiles/apiwrap.cpp:903-1121 | Over every run each request in flight has a live state that records it, and each recorded request is in flight or answered. |
| `Dialogs.OneRequestOfAKind` | Telegram/SourceFiles/apiwrap.cpp:910-920 | A folder has at most one list request and one pinned request in flight. |
| `Dialogs.ReportedOnce` | Telegram/SourceFiles/apiwrap.cpp:1071-1088 | No state is missing when the fail handler uses it, every load is reported as done exactly once, when it ends, and it ends as soon as both parts have arrived. |
| `Dialogs.NoListAfterReceived` | Telegram/SourceFiles/apiwrap.cpp:935-953 | After the list was received no list request of the folder is in flight or sent for this state. |
| `Dialogs.NoListUntilReported` | Telegram/SourceFiles/apiwrap.cpp:935-953 | Over every run, until the load is reported, no list request follows a received list. |
| `Dialogs.PagesFollow` | Telegram/SourceFiles/apiwrap.cpp:925-953 | A list request in flight asks for the page behind the last one that came, and a page moves the load to its own end. |
| `Dialogs.StuckForGood` | Telegram/SourceFiles/apiwrap.cpp:937-940 | After a not-modified answer the load is never finished: its request id stays, and nothing is asked for again. |
| `Dialogs.NotModifiedSticks` | Telegram/SourceFiles/apiwrap.cpp:937-940 | A run in which the first request of the main list gets such an answer. |
| `Dialogs.BlockedUntilNewLimit` | Telegram/SourceFiles/apiwrap.cpp:910-917 | Over every run, while the limit by date blocks, the main list waits at a date up to the limit, and until a new limit is set, by moving it back or by the support mode, the block stays and no list request of any folder is sent. |
| `Dialogs.BlockedStays` | Telegram/SourceFiles/apiwrap.cpp:910-994 | Every step keeps the meaning of the block by date, and only a new limit ends it. |
| `Dialogs.NewLimitSendsIff` | Telegram/SourceFiles/apiwrap.cpp:1123-1133 | Moving the limit back sends the next request of the main list if and only if none is under way and its date is not up to the limit; otherwise, with none under way, it blocks. |
| `Dialogs.ChangedLimitSendsNothing` | Telegram/SourceFiles/apiwrap.cpp:269-279 | A new time slice of the support mode sets the limit and the block in the same way and sends nothing; if it unblocks, the next call asks for the page. |
| `Dialogs.FailureIgnoresLimit` | Telegram/SourceFiles/apiwrap.cpp:972-974 | After a failed list request of the main list the block is stale if and only if its date is up to the limit, and the next call sends all the same. |
| `Dialogs.QuietLoadsAreIdle` | Telegram/SourceFiles/apiwrap.cpp:976-978 | When nothing is in flight, a load that is not stuck waits to be asked again, and its pinned dialogs are there if a page came. |
| `Dialogs.ListLandedKeepsInv` | Telegram/SourceFiles/apiwrap.cpp:935-953 | The three kinds of answers keep the invariant. |
| `Dialogs.PinnedDoneKeepsInv` | Telegram/SourceFiles/apiwrap.cpp:1096-1102 | The end of a pinned request keeps the invariant. |
| `Dialogs.NextPageIsAskedFor` | Telegram/SourceFiles/apiwrap.cpp:935-1014 | A page of the main list is followed at once by the request for the page behind it, exactly if its date is not up to the limit; otherwise it blocks, and while exceptions are loaded it sends nothing. |
| `Dialogs.ArchiveFollowsTheMainList` | Telegram/SourceFiles/apiwrap.cpp:996-1014 | When the main list was received and the archive is needed, the answer is followed by the request for the next page of the archive. |
| `Dialogs.MoreIsAskedFor` | Telegram/SourceFiles/apiwrap.cpp:996-1014 | The idle main list is asked for its next page until it was received, and then the archive, if it is needed. |
| `Dialogs.RequestMoreSends` | Telegram/SourceFiles/apiwrap.cpp:910-935 | A folder that is idle and not blocked is asked for the page behind its offset. |
| `Dialogs.SecondPageIsAskedFor` | Telegram/SourceFiles/apiwrap.cpp:966-1005 | The first page of the main list, and the request for the second one behind it. |
| `Dialogs.RequestMoreLimits` | Telegram/SourceFiles/apiwrap.cpp:980-982 | A request of the main list computes the limits by date anew, and one of a folder leaves them alone. |
| `Dialogs.ListDoneLimits` | Telegram/SourceFiles/apiwrap.cpp:966-969 | An answer to the main list computes the limits anew, unless the list was received and the load still waits for its pinned dialogs. |
| `Dialogs.LastPageIs` | Telegram/SourceFiles/apiwrap.cpp:941-953 | The last page ends the load of a folder whose pinned dialogs are there; any other load waits for those. |
| `Dialogs.PinnedDoneIs` | Telegram/SourceFiles/apiwrap.cpp:1096-1102 | The pinned dialogs end the load of a folder whose list was received. |
| `Dialogs.ListFailedIs` | Telegram/SourceFiles/apiwrap.cpp:972-974 | A failed list request can be sent again for the same page. |
| `DialogsApi.GoesOnIff` | Telegram/SourceFiles/apiwrap.cpp:1016-1061 | A page is followed by another exactly when one of its dialogs has its top message with a date. |
| `DialogsApi.OffsetIsOneDialogsIff` | Telegram/SourceFiles/apiwrap.cpp:1016-1061 | The next offset is that of one dialog of the page if and only if the last dialog that counts has its top message with a date, or none has. |
| `DialogsApi.OffsetOfTwoDialogs` | Telegram/SourceFiles/apiwrap.cpp:1020-1049 | A page of two dialogs whose offset has the date of the one and the place of the other. |
| `DialogsApi.DialogsApi.SupportChatsTimeSliceChanged` | Telegram/SourceFiles/apiwrap.cpp:274-278 | A new time slice is the specified change of the limit. |
| `DialogsApi.DialogsApi.LastOfPage` | Telegram/SourceFiles/apiwrap.cpp:1016-1049 | The backward loops find the next offset: the last dated top message, and the place of the last dialog that counts. |
| `DialogsApi.DialogsApi.UpdateDialogsOffset` | Telegram/SourceFiles/apiwrap.cpp:1050-1061 | The offset is stored and the request cleared, or the list is complete. |
| `DialogsApi.DialogsApi.DialogsDone` | Telegram/SourceFiles/apiwrap.cpp:935-971 | The done handler is the specified transition, with the limit by date and the requests that follow. |
| `DialogsApi.DialogsApi.DialogsFailed` | Telegram/SourceFiles/apiwrap.cpp:972-974 | The fail handler finds the state it dereferences. |
| `DialogsApi.DialogsApi.RequestMoreDialogs` | Telegram/SourceFiles/apiwrap.cpp:910-982 | A request is sent only without another one and when the date does not block, with the pinned one beside it. |
| `DialogsApi.DialogsApi.RefreshDialogsLoadBlocked` | Telegram/SourceFiles/apiwrap.cpp:984-994 | The two limits by date are computed from the main state as specified. |
| `DialogsApi.DialogsApi.RequestPinnedDialogs` | Telegram/SourceFiles/apiwrap.cpp:1090-1105 | A pinned request is sent only if none is in flight and none was answered. |
| `DialogsApi.DialogsApi.RequestDialogs` | Telegram/SourceFiles/apiwrap.cpp:903-908 | A folder that is not being loaded starts a new load; the main list does not. |
| `DialogsApi.DialogsApi.RequestMoreDialogsIfNeeded` | Telegram/SourceFiles/apiwrap.cpp:996-1014 | The main list goes on before the archive, and neither while exceptions are loaded. |
| `DialogsApi.DialogsApi.RequestMoreBlockedByDateDialogs` | Telegram/SourceFiles/apiwrap.cpp:1123-1133 | The limit by date is moved back by one slice, and the main list is asked to go on. |
| `DialogsApi.DialogsApi.DialogsLoadFinish` | Telegram/SourceFiles/apiwrap.cpp:1071-1088 | A load is removed and reported exactly when both its parts have arrived. |
| `DialogsApi.DialogsApi.DateOfTop` | Telegram/SourceFiles/apiwrap.cpp:1036-1044 | The backward loop finds the date of the last message that is the top one of the dialog. |
| `DialogsApi.DialogsApi.PinnedFinalize` | Telegram/SourceFiles/apiwrap.cpp:1096-1102 | The end of a pinned request is the specified transition. |
| `DialogsApi.DateOfIs` | Telegram/SourceFiles/apiwrap.cpp:1036-1044 | The date of a dialog is that of the last of the messages with its id and its peer. |
| `DialogsApi.PlaceIs` | Telegram/SourceFiles/apiwrap.cpp:1023-1035 | The place of the offset is the last dialog of the page that has a peer and a message. |
| `DialogsApi.DateIs` | Telegram/SourceFiles/apiwrap.cpp:1020-1050 | The date of the offset is that of the last dialog that has a place and a dated message. |
| `Forward.RunsAreMaximal` | Telegram/SourceFiles/apiwrap.cpp:3784-3820 | The items are cut into runs of one source peer that cannot be made longer and together are all items in order. |
| `Forward.RunsAreUnique` | Telegram/SourceFiles/apiwrap.cpp:3784-3820 | There is only one such cut. |
| `Forward.BatchesCarryAll` | Telegram/SourceFiles/apiwrap.cpp:3777-3820 | The requests carry every item once, in order, each with its own random id, and each request the items of one peer. |
| `Forward.StarsAreConserved` | Telegram/SourceFiles/apiwrap.cpp:3693-3700 | The approved stars are the paid ones and the remaining ones, whatever the price. |
| `Forward.PaysTheTotalIff` | Telegram/SourceFiles/apiwrap.cpp:3693-3700 | The whole forward pays the price of all items, as far as the approved stars go, if and only if the price of every run fits into 32 bits, or the wrapped prices, taken from the last run, never sum to less than nothing and reach what was approved. |
| `Forward.WholeForward` | Telegram/SourceFiles/apiwrap.cpp:3682-3820 | For a whole forward at any price: every id with its random id in order, the total paid is what the approved stars lost, and it is the smaller of these and the full price exactly under that condition. |
| `Forward.RemainingIsCovered` | Telegram/SourceFiles/apiwrap.cpp:3693-3700 | What remains of the approved stars is at most a sum exactly if the wrapped prices cover the rest, from the last run on; it is never negative. |
| `Forward.PaysThePriceIff` | Telegram/SourceFiles/apiwrap.cpp:3693-3695 | One request pays its price if and only if the product fits, or its wrapped value still covers the approved stars. |
| `Forward.CalledOnceIffAllSucceed` | Telegram/SourceFiles/apiwrap.cpp:3609-3618 | The success callback is called exactly once if all requests succeed, in any order of replies, and never otherwise. |
| `Forward.Forwarding.ForwardMessages` | Telegram/SourceFiles/apiwrap.cpp:3566-3822 | The accumulating loop sends exactly the specified requests, the saved music goes as documents, and an empty draft succeeds at once; a draft that is handed over sends nothing and never calls back. |
| `Forward.Forwarding.SendMusic` | Telegram/SourceFiles/apiwrap.cpp:3589-3597 | The erase loop takes exactly the saved music out of the draft and sends it. |
| `Forward.Forwarding.SendAccumulated` | Telegram/SourceFiles/apiwrap.cpp:3687-3780 | One request is sent with what was accumulated, and its stars are taken off. |
| `Forward.Forwarding.Succeeded` | Telegram/SourceFiles/apiwrap.cpp:3746-3753 | The callback is called by the success that leaves no request. |
| `Forward.WrappedPrices` | Telegram/SourceFiles/apiwrap.cpp:3693-3695 | Four items at 2^30 stars each are paid with nothing, two with minus 2^31, three at 3 * 2^28 with a negative sum. |
| `Forward.WrappedForwards` | Telegram/SourceFiles/apiwrap.cpp:3693-3700 | A forward of four such items spends nothing of what was approved, and one of three leaves more than was approved. |
| `Forward.OneItemMore` | Telegram/SourceFiles/apiwrap.cpp:3589-3597 | Saved music is sent as its document, and any other item is forwarded behind those before it. |
| `Forward.RepliesLand` | Telegram/SourceFiles/apiwrap.cpp:3746-3775 | Every reply of a run lands, and exactly the failed requests have failed. |
| `Albums.RunKeepsInv` | Telegram/SourceFiles/apiwrap.cpp:4712-5124 | Over every run of loads, uploads, cancellations and failures of either kind, each item of an unsent album waits for its file or its upload, or its upload failed, or it holds the media with the text of its message. |
| `Albums.SubmittedOnce` | Telegram/SourceFiles/apiwrap.cpp:5029-5124 | Over every run from the start no assertion fails, no album is submitted twice in any of the three ways, and an album of which nothing is missing is unsent if and only if a file of it failed to load and none of its items was uploaded or cancelled since. |
| `Albums.UnsentIff` | Telegram/SourceFiles/apiwrap.cpp:4712-5124 | Over every run from the start, an album of which nothing is on its way is unsent if and only if such a failed file left it complete, or the upload of one of its items failed. |
| `Albums.LostStaysUnsent` | Telegram/SourceFiles/apiwrap.cpp:4717-4719 | Until that item is cancelled, an item whose upload failed stays without media, and its album is submitted in no run. |
| `Albums.LostStays` | Telegram/SourceFiles/apiwrap.cpp:4712-4804 | No step but its cancellation takes an item whose upload failed away, or sends its album. |
| `Albums.UploadLostKeepsInv` | Telegram/SourceFiles/apiwrap.cpp:4712-4804 | A failed upload, or an answer with media of another kind, keeps the invariant. |
| `Albums.FailedUploadStopsTheAlbum` | Telegram/SourceFiles/apiwrap.cpp:4712-4804 | A run with two files, one uploaded and the other failed, that ends with nothing on its way and the album not sent. |
| `Albums.StaysUnsent` | Telegram/SourceFiles/apiwrap.cpp:4996-5124 | An unsent album of which nothing is missing is not changed and not submitted in any run in which none of its items is cancelled. |
| `Albums.CancelReleases` | Telegram/SourceFiles/apiwrap.cpp:5011-5027 | Cancelling an item of an unsent album of which nothing is missing submits all the others, or drops the album with its last item. |
| `Albums.StuckStays` | Telegram/SourceFiles/apiwrap.cpp:4996-5124 | No step but a cancellation of one of its items changes an unsent album of which nothing is missing. |
| `Albums.UploadSubmits` | Telegram/SourceFiles/apiwrap.cpp:4996-5009 | An upload submits the album exactly when no item is missing any more: the media of all items in album order, each with the current text of its message. |
| `Albums.CancelSubmits` | Telegram/SourceFiles/apiwrap.cpp:5011-5027 | A cancellation submits the surviving items exactly when there are some and none of them is missing. |
| `Albums.OthersSubmitNothing` | Telegram/SourceFiles/apiwrap.cpp:5029-5124 | No other event submits an album. |
| `Albums.UploadFindsItem` | Telegram/SourceFiles/apiwrap.cpp:5004-5007 | The album of an uploaded message is there, and its item is there without media: both assertions hold. |
| `Albums.CancelFindsItem` | Telegram/SourceFiles/storage/localimageloader.cpp:394-399 | The item to remove is in the album. |
| `Albums.FailedFileStallsTheAlbum` | Telegram/SourceFiles/storage/localimageloader.cpp:1083-1094 | A run that leaves an album unsent although nothing is missing or on its way: its last missing file could not be loaded. |
| `Albums.SubmittedAlbum` | Telegram/SourceFiles/apiwrap.cpp:5052-5124 | A single file takes its album out at once; any other album stays, sent, until its answer. |
| `Albums.WithoutMessagesDropped` | Telegram/SourceFiles/apiwrap.cpp:5039-5052 | A complete album of which no message is left is dropped, and not sent. |
| `Albums.AnswersAre` | Telegram/SourceFiles/apiwrap.cpp:5113-5124 | The answer to a send takes the album out, and that to a paid one the messages of its items along. |
| `Albums.CancelMovesText` | Telegram/SourceFiles/storage/localimageloader.cpp:394-413 | The message of a cancelled item is gone, and the first item that stays takes over the text of a cancelled first one, in a line of its own. |
| `Albums.CancelKeepsItems` | Telegram/SourceFiles/storage/localimageloader.cpp:381-413 | The other items keep their order and their media, the new first one with the joined text. |
| `AlbumsApi.AlbumsApi.SendAlbumIfReady` | Telegram/SourceFiles/apiwrap.cpp:5029-5124 | The loop over the items sends the album in one of three ways, drops it, or waits, as specified. |
| `AlbumsApi.AlbumsApi.FillMedia` | Telegram/SourceFiles/storage/localimageloader.cpp:370-379 | The matching item, and only it, gets the media. |
| `AlbumsApi.AlbumsApi.RemoveAlbumItem` | Telegram/SourceFiles/storage/localimageloader.cpp:394-413 | Exactly the matching item is removed, and the caption of a removed first item moves to the next one. |
| `AlbumsApi.AlbumsApi.SendAlbumWithUploaded` | Telegram/SourceFiles/apiwrap.cpp:4996-5009 | The answer to an upload is the specified transition, without a failing assertion. |
| `AlbumsApi.AlbumsApi.SendAlbumWithCancelled` | Telegram/SourceFiles/apiwrap.cpp:5011-5027 | The cancellation is the specified transition, without a failing assertion. |
| `AlbumsApi.AlbumsApi.SendFiles` | Telegram/SourceFiles/apiwrap.cpp:4052-4058 | A new album gets one empty item for every file. |
| `AlbumsApi.AlbumsApi.RefreshMediaCaption` | Telegram/SourceFiles/storage/localimageloader.cpp:381-392 | The media of the new first item, if it has one, takes over the joined text. |
| `AlbumsApi.AlbumsApi.AlbumAnswered` | Telegram/SourceFiles/apiwrap.cpp:5113-5124 | The album of an answered send is taken out. |
| `AlbumsApi.AlbumsApi.PaidAlbumAnswered` | Telegram/SourceFiles/apiwrap.cpp:4978-4990 | The loop destroys the messages of the items of a paid album. |
| `InviteLinks.LookupIsSearch` | Telegram/SourceFiles/api/api_invite_links.cpp:124-141 | The lookup of the first element agrees with a full search, and finds every live permanent link there is. |
| `InviteLinks.LookupIsRight` | Telegram/SourceFiles/api/api_invite_links.cpp:124-205 | At any time of any run the lookup is the full search, and the main link stored with the peer is the link it finds, if a first list has at most one live permanent link and edits keep the string and kind of a link and never take back that it is revoked. |
| `InviteLinks.PrependKeepsInv` | Telegram/SourceFiles/api/api_invite_links.cpp:162-205 | A new link of any kind keeps the live permanent link at the front only. |
| `InviteLinks.FrontedIff` | Telegram/SourceFiles/api/api_invite_links.cpp:28-36 | Bringing the first live permanent link to the front suffices if and only if there are no two of them. |
| `InviteLinks.LoadKeepsInvIff` | Telegram/SourceFiles/api/api_invite_links.cpp:426-451 | A loaded list keeps the invariant if and only if it holds at most one live permanent link or one is cached already. |
| `InviteLinks.SecondPermanentLinkIsLost` | Telegram/SourceFiles/api/api_invite_links.cpp:28-36 | A first list with two live permanent links: when the one at the front is revoked, the lookup does not see the other. |
| `InviteLinks.EditKeepsInvIff` | Telegram/SourceFiles/api/api_invite_links.cpp:288-304 | An edited link keeps the invariant if and only if, should it be live and permanent, it is the front one and the main link. |
| `InviteLinks.UpdateKeepsInv` | Telegram/SourceFiles/api/api_invite_links.cpp:522-531 | An external update that keeps the kind of its links keeps the invariant. |
| `InviteLinks.PermanentSetKeepsInv` | Telegram/SourceFiles/api/api_invite_links.cpp:633-665 | Setting the permanent link keeps the invariant. |
| `InviteLinks.RunKeepsInv` | Telegram/SourceFiles/api/api_invite_links.cpp:124-707 | Every mutation of every run keeps the invariant for all peers, under the same assumptions on the server. |
| `InviteLinks.CountIsKept` | Telegram/SourceFiles/api/api_invite_links.cpp:179-195 | Every operation but one keeps the count at least as large as the number of cached links. |
| `InviteLinks.SetPermanentCountsIff` | Telegram/SourceFiles/api/api_invite_links.cpp:656-663 | Setting the permanent link keeps the count right if and only if it only refreshes the link, or the count had room for one more. |
| `InviteLinks.PermanentLinkIsNotCounted` | Telegram/SourceFiles/api/api_invite_links.cpp:656-663 | Set in an empty cache, the link is there and the count is zero. |
| `InviteLinks.PrependedIs` | Telegram/SourceFiles/api/api_invite_links.cpp:162-205 | A new link is counted; a permanent one takes the front from the live permanent one, another one comes behind that, and all others keep their order. |
| `InviteLinks.EditedIs` | Telegram/SourceFiles/api/api_invite_links.cpp:288-304 | An edit changes the first link of its string alone; a newly revoked one goes and is not counted any more. |
| `InviteLinks.FirstListIs` | Telegram/SourceFiles/api/api_invite_links.cpp:426-445 | The first list is the given one, with its first live permanent link in front, which is the main one then. |
| `InviteLinks.FirstListKeeps` | Telegram/SourceFiles/api/api_invite_links.cpp:426-445 | The first list has exactly the given links, and their count. |
| `InviteLinks.LaterListIs` | Telegram/SourceFiles/api/api_invite_links.cpp:426-451 | A later list is the known permanent link and behind it the given ones without it and without live permanent ones, and its count covers them. |
| `InviteLinks.LaterListInOrder` | Telegram/SourceFiles/api/api_invite_links.cpp:426-451 | The links of a later list keep their order. |
| `InviteLinks.PermanentSetIs` | Telegram/SourceFiles/api/api_invite_links.cpp:620-676 | Setting the permanent link refreshes the usage of the same link, or puts another one to the front in place of the old one, without counting it. |
| `InviteLinks.PermanentClearedIs` | Telegram/SourceFiles/api/api_invite_links.cpp:678-707 | Clearing takes the front link away and out of the count, and leaves no main link. |
| `InviteLinks.UpdatedIs` | Telegram/SourceFiles/api/api_invite_links.cpp:522-531 | An update replaces every link of its string, and nothing else. |
| `InviteLinksApi.LandedKeepsInv` | Telegram/SourceFiles/api/api_invite_links.cpp:279-281 | A reply finds the callbacks it dereferences and takes exactly its own record away. |
| `InviteLinksApi.RequestsAreRecorded` | Telegram/SourceFiles/api/api_invite_links.cpp:76-456 | Over every run from the start, with callbacks that call back: requests in flight and records correspond one to one, except that a record is without a request if and only if it is that of a deletion of all revoked links that failed. |
| `InviteLinksApi.AllCalledKeepsInv` | Telegram/SourceFiles/api/api_invite_links.cpp:76-456 | Every call, answer and failure of a run keeps the correspondence of records and requests in flight. |
| `InviteLinksApi.CallbacksAreConserved` | Telegram/SourceFiles/api/api_invite_links.cpp:76-413 | Over every run from the start, for each kind of request: the callbacks given are those called, dropped by a failure or by a deletion under way, and waiting, as multisets; none waits without a request in flight, unless a deletion of all revoked links failed. |
| `InviteLinksApi.NeverDeletedAgain` | Telegram/SourceFiles/api/api_invite_links.cpp:387-413 | After the deletion of all revoked links of a peer failed, no call of any run sends it again: its callbacks and all later ones wait, and none is called or dropped. |
| `InviteLinksApi.StuckStays` | Telegram/SourceFiles/api/api_invite_links.cpp:387-413 | After such a failure no call or answer sends the deletion again or calls its callbacks; a further call only adds one. |
| `InviteLinksApi.FailedKeepsInv` | Telegram/SourceFiles/api/api_invite_links.cpp:281-456 | A failure takes its record away, apart from the one without a fail handler. |
| `InviteLinksApi.FailedDeletionWaits` | Telegram/SourceFiles/api/api_invite_links.cpp:387-413 | A call, its failure and another call: both callbacks wait, with nothing in flight. |
| `InviteLinksApi.InviteLinksCache.PrependMyToFirstSlice` | Telegram/SourceFiles/api/api_invite_links.cpp:162-205 | The method changes the slice and the main link as specified. |
| `InviteLinksApi.InviteLinksCache.EditDone` | Telegram/SourceFiles/api/api_invite_links.cpp:279-322 | The edit handler takes its callbacks, changes the slice, calls them, and prepends a replacement; a failure drops them. |
| `InviteLinksApi.InviteLinksCache.CreateDone` | Telegram/SourceFiles/api/api_invite_links.cpp:111-121 | The new link is prepended and exactly the waiting callbacks are called; without a link, or for a failure, they are dropped. |
| `InviteLinksApi.InviteLinksCache.DestroyLink` | Telegram/SourceFiles/api/api_invite_links.cpp:348-369 | A link is deleted once at a time; the callback joins the waiting ones. |
| `InviteLinksApi.InviteLinksCache.DestroyDone` | Telegram/SourceFiles/api/api_invite_links.cpp:370-384 | The answer calls exactly the waiting callbacks of the link, and a failure drops them. |
| `InviteLinksApi.InviteLinksCache.DestroyAllRevoked` | Telegram/SourceFiles/api/api_invite_links.cpp:387-405 | The deletion of all revoked links is sent only if none of the peer is recorded; the callback joins the waiting ones. |
| `InviteLinksApi.InviteLinksCache.DestroyAllRevokedDone` | Telegram/SourceFiles/api/api_invite_links.cpp:405-412 | The answer calls exactly the waiting callbacks of the peer. |
| `InviteLinksApi.InviteLinksCache.TakeEdits` | Telegram/SourceFiles/api/api_invite_links.cpp:279-322 | The end of an edit takes exactly its callbacks away. |
| `InviteLinksApi.InviteLinksCache.TakeCreates` | Telegram/SourceFiles/api/api_invite_links.cpp:111-121 | The end of a creation takes exactly its callbacks away. |
| `InviteLinksApi.InviteLinksCache.MyLinksDone` | Telegram/SourceFiles/api/api_invite_links.cpp:426-451 | The list handler rotates or merges the list as specified. |
| `InviteLinksApi.InviteLinksCache.BringPermanentToFront` | Telegram/SourceFiles/api/api_invite_links.cpp:28-36 | The search and the rotation move the first live permanent link to the front and keep the order of the others. |
| `InviteLinksApi.InviteLinksCache.RemovePermanent` | Telegram/SourceFiles/api/api_invite_links.cpp:38-43 | The loop removes exactly the live permanent links. |
| `InviteLinksApi.InviteLinksCache.SetMyPermanent` | Telegram/SourceFiles/api/api_invite_links.cpp:620-676 | The method is the specified operation, and ignores a link that is not permanent. |
| `InviteLinksApi.InviteLinksCache.ClearMyPermanent` | Telegram/SourceFiles/api/api_invite_links.cpp:678-707 | The method removes the live permanent link and the main link. |
| `InviteLinksApi.InviteLinksCache.ApplyExternalUpdate` | Telegram/SourceFiles/api/api_invite_links.cpp:522-531 | The loop replaces exactly the links with the same string. |
| `InviteLinksApi.InviteLinksCache.PerformEditLink` | Telegram/SourceFiles/api/api_invite_links.cpp:248-262 | An edit is sent only if the link is neither being deleted nor being edited; its callback joins the waiting ones. |
| `InviteLinksApi.InviteLinksCache.PerformCreate` | Telegram/SourceFiles/api/api_invite_links.cpp:76-93 | A link is created only if none of the peer is being created; the callback joins the waiting ones. |
| `InviteLinksApi.InviteLinksCache.RequestLinks` | Telegram/SourceFiles/api/api_invite_links.cpp:415-426 | The first slice is requested only if it is not being requested. |
| `InviteLinksApi.InviteLinksCache.LookupMyPermanent` | Telegram/SourceFiles/api/api_invite_links.cpp:124-141 | The method looks at the first link only. |
| `InviteLinksApi.InviteLinksCache.ReplaceEdited` | Telegram/SourceFiles/api/api_invite_links.cpp:288-304 | The first link with the edited string is replaced, or erased when it is newly revoked. |
| `InviteLinksApi.InviteLinksCache.ParseSlice` | Telegram/SourceFiles/api/api_invite_links.cpp:721-741 | The loop drops exactly the links with the string of the known permanent one. |
| `InviteLinksApi.SendsIff` | Telegram/SourceFiles/api/api_invite_links.cpp:76-456 | A call sends its request exactly if that has no record yet and, for an edit, if its link is not being deleted. |
| `InviteLinksApi.CreateWaits` | Telegram/SourceFiles/api/api_invite_links.cpp:76-93 | The callbacks of a creation wait in the order in which they were given. |
| `SearchMerged.EveryOrderAgrees` | Telegram/SourceFiles/api/api_messages_search_merged.cpp:14-110 | After clear and search with a non-empty token the state depends only on how many pages came from each side: main pages, then the migrated ones once main is full, each once, with the totals added once and one new-search event. |
| `SearchMerged.RunKeepsInv` | Telegram/SourceFiles/api/api_messages_search_merged.cpp:14-110 | The same over every run of pages, failures and requests for more. |
| `SearchMerged.FirstPagesAreReportedIff` | Telegram/SourceFiles/api/api_messages_search_merged.cpp:14-64 | In every run in which the first pages of the searched histories came, with or without a migrated one, in any order and with any pages and failures behind them: the search is reported once, with the totals of its first pages together, if and only if its token is not empty. |
| `SearchMerged.EmptyTokenReportsNothing` | Telegram/SourceFiles/api/api_messages_search_merged.cpp:40-48 | With an empty token no run ever reports a new search or a total. |
| `SearchMerged.MessagesSearchMerged.MainFound` | Telegram/SourceFiles/api/api_messages_search_merged.cpp:38-49 | The handler of the history is the specified transition. |
| `SearchMerged.MessagesSearchMerged.MigratedFound` | Telegram/SourceFiles/api/api_messages_search_merged.cpp:51-64 | The handler of the migrated history is the specified transition. |
| `SearchMerged.MessagesSearchMerged.AddFoundMessages` | Telegram/SourceFiles/api/api_messages_search_merged.cpp:73-77 | The loop appends exactly the messages of the page. |
| `SearchMerged.MessagesSearchMerged.Clear` | Telegram/SourceFiles/api/api_messages_search_merged.cpp:87-92 | Both found lists and both flags are reset. |
| `SearchMerged.MessagesSearchMerged.Search` | Telegram/SourceFiles/api/api_messages_search_merged.cpp:94-102 | Behind a clear, a search starts a run. |
| `SearchMerged.FirstPagesAreOnTheirWay` | Telegram/SourceFiles/api/api_messages_search_merged.cpp:94-102 | After a search the first pages of both histories may come, in either order. |
| `SearchMerged.SearchMoreIs` | Telegram/SourceFiles/api/api_messages_search_merged.cpp:104-110 | More is asked of the history until its list is complete, and then of the migrated one, if there is one. |
| `SearchMerged.SecondPageComes` | Telegram/SourceFiles/api/api_messages_search_merged.cpp:38-49 | A second page comes when it was asked for behind the first. |
| `SearchMerged.MessagesSearchMerged.SearchMore` | Telegram/SourceFiles/api/api_messages_search_merged.cpp:104-110 | The method asks the migrated history exactly if there is one and the list of the other is complete. |
| `ShellFrames.PageIsRight` | Telegram/Resources/bot_webview_shell_html/page.js:128-158 | At any time the queue has at most 64 events, all of the current frame, none while that is loaded; a set timer is for the current frame; and every frame got exactly what its history says. |
| `ShellFrames.SendAllSends` | Telegram/Resources/bot_webview_shell_html/page.js:206-213 | Flushing sends every waiting event: the check of the generation never fails. |
| `ShellFrames.LastOfLast` | Telegram/Resources/bot_webview_shell_html/page.js:147-154 | Dropping the oldest at every push keeps the last 64 of all that waited. |
| `ShellFrames.DeliveredThenWaiting` | Telegram/Resources/bot_webview_shell_html/page.js:128-213 | What a frame got and what waits is a subsequence of what was posted, in the order of posting. |
| `ShellFrames.NothingIsLostIff` | Telegram/Resources/bot_webview_shell_html/page.js:144-158 | A frame gets everything posted to it if and only if no wait is for more than 64 events. |
| `ShellFrames.TimerIsCurrent` | Telegram/Resources/bot_webview_shell_html/page.js:969-985 | Whenever the reload timer fires in a run, it was set for the frame that is there, and replaces that one. |
| `ShellFrames.StepKeepsInv` | Telegram/Resources/bot_webview_shell_html/page.js:936-985 | Posting, loading, reloading, leaving and creating a frame keep the invariant. |
| `ShellFrames.ShellPage.PostEvent` | Telegram/Resources/bot_webview_shell_html/page.js:144-158 | The push and the dropping loop, or the direct send, are the specified transition. |
| `ShellFrames.ShellPage.FlushPendingEvents` | Telegram/Resources/bot_webview_shell_html/page.js:206-213 | The loop over the queue is the specified flush. |
| `ShellFrames.ShellPage.OnLoad` | Telegram/Resources/bot_webview_shell_html/page.js:947-954 | The load handler of an old frame does nothing, that of the current one flushes. |
| `ShellFrames.ShellPage.CreateIframe` | Telegram/Resources/bot_webview_shell_html/page.js:936-963 | A new frame starts with the next generation, an empty queue and no timer. |
| `ShellFrames.ShellPage.OnWillReload` | Telegram/Resources/bot_webview_shell_html/page.js:866-872 | The frame that will reload is not loaded any more, and the timer is stopped. |
| `ShellFrames.ShellPage.ReloadIframe` | Telegram/Resources/bot_webview_shell_html/page.js:969-985 | A loaded frame that can reload is asked to, with a timer; any other is created again. |
| `ShellFrames.ShellPage.OnReloadTimeout` | Telegram/Resources/bot_webview_shell_html/page.js:978-981 | The timer that fires was set for the current frame. |
| `ShellFrames.ShellPage.SendEvent` | Telegram/Resources/bot_webview_shell_html/page.js:128-142 | An event is posted into the frame only if it is the current one and its origin is known. |
| `ShellFrames.ShellPage.OnReady` | Telegram/Resources/bot_webview_shell_html/page.js:863-865 | The frame tells whether it can reload itself. |
| `ShellFrames.LoadIs` | Telegram/Resources/bot_webview_shell_html/page.js:947-954 | The load of the current frame posts everything that waits into it, in order, unless its origin is not known; the load of another frame does nothing. |
| `ShellFrames.PostIs` | Telegram/Resources/bot_webview_shell_html/page.js:144-158 | An event for a loaded frame is posted at once, and waits otherwise; only the oldest of 64 waiting ones is dropped for it. |
| `ShellFrames.CreateIs` | Telegram/Resources/bot_webview_shell_html/page.js:936-963 | A new frame starts unloaded, with nothing waiting for it and without a timer. |
| `ShellFrames.LeavingIs` | Telegram/Resources/bot_webview_shell_html/page.js:866-872 | What waits while a frame reloads by itself waits on, and the timer is stopped. |
| `ShellFrames.ReloadIs` | Telegram/Resources/bot_webview_shell_html/page.js:969-985 | A loaded frame that can reload by itself is asked to, under a timer; any other one is replaced. |
| `PeerSearch.SearchIsRight` | Telegram/SourceFiles/api/api_peer_search.cpp:36-178 | Over every run the assertions hold, no callback is called twice, and each part of a query is sent at most once between clearings. |
| `PeerSearch.StepDelivers` | Telegram/SourceFiles/api/api_peer_search.cpp:133-166 | A step calls at most one callback, with nothing for an empty query or a tag, or with exactly the answers to the latest query. |
| `PeerSearch.CompleteStays` | Telegram/SourceFiles/api/api_peer_search.cpp:133-160 | A complete cache entry stays what it is until the cache is cleared. |
| `PeerSearch.AnsweredIff` | Telegram/SourceFiles/api/api_peer_search.cpp:48-65 | Over every run from the start, a requested query of which nothing is on its way is answered if and only if it is shorter than four characters or the class asks for sponsored peers; a callback that still waits for it then waits for a query that is never answered. |
| `PeerSearch.StepWaits` | Telegram/SourceFiles/api/api_peer_search.cpp:36-178 | Every step keeps it that what a requested query misses is on its way, unless it is never asked for, and that a callback only waits for a requested and incomplete query. |
| `PeerSearch.LongQueryWaits` | Telegram/SourceFiles/api/api_peer_search.cpp:58-65 | A run that asks for a query of four characters or more without sponsored peers ends with nothing on its way and the callback not called. |
| `PeerSearch.LongQueriesNeedAds` | Telegram/SourceFiles/api/api_peer_search.cpp:60-64 | Without sponsored requests a query of four characters or more is answered at no point of a run. |
| `PeerSearch.ReadyIsAnswered` | Telegram/SourceFiles/api/api_peer_search.cpp:48-51 | An entry is ready exactly when all answers to its query are there, and it holds exactly these. |
| `PeerSearch.StillMissing` | Telegram/SourceFiles/api/api_peer_search.cpp:133-155 | A request in flight is known to the class, and its part is still missing: both assertions hold. |
| `PeerSearch.ClearKeepsInv` | Telegram/SourceFiles/api/api_peer_search.cpp:168-178 | Clearing leaves no request that could be answered. |
| `PeerSearch.AskCalls` | Telegram/SourceFiles/api/api_peer_search.cpp:36-57 | A callback that comes with a request is called at once for an empty query, a tag or a complete answer, forgotten if only the cache is asked, and waits otherwise; an earlier one is forgotten. |
| `PeerSearch.AskSends` | Telegram/SourceFiles/api/api_peer_search.cpp:53-65 | A query that was not asked for is sent, with its sponsored part if it has one, unless only the cache is asked. |
| `PeerSearch.PeersAnswerCalls` | Telegram/SourceFiles/api/api_peer_search.cpp:133-146 | An answer with peers calls the waiting callback exactly if it completes the latest query. |
| `PeerSearch.SponsoredAnswerCalls` | Telegram/SourceFiles/api/api_peer_search.cpp:148-160 | An answer with sponsored peers calls the waiting callback exactly if it completes the latest query. |
| `PeerSearch.ClearIs` | Telegram/SourceFiles/api/api_peer_search.cpp:168-178 | Clearing leaves the state of the start, apart from what was called. |
| `PeerSearch.ShortQueryIsCalled` | Telegram/SourceFiles/api/api_peer_search.cpp:36-146 | A short query, its answer, and the call of its callback with exactly what was found. |
| `PeerSearch.PeersAnswerFound` | Telegram/SourceFiles/api/api_peer_search.cpp:133-146 | An answer with peers is kept for its query, and completes a short one. |
| `PeerSearch.SponsoredAnswerFound` | Telegram/SourceFiles/api/api_peer_search.cpp:148-160 | An answer with sponsored peers is kept for its query, and completes it if its peers are there. |
| `PeerSearch.AskWithoutCallback` | Telegram/SourceFiles/api/api_peer_search.cpp:36-57 | A request without a callback calls nothing and forgets an earlier one. |
| `PeerSearchApi.PeerSearchApi.Ask` | Telegram/SourceFiles/api/api_peer_search.cpp:36-66 | The method is the specified request, with its branch for an empty query or a tag. |
| `PeerSearchApi.PeerSearchApi.AskCache` | Telegram/SourceFiles/api/api_peer_search.cpp:47-65 | The rest of the request: cached, cache-only, repeated and new queries. |
| `PeerSearchApi.PeerSearchApi.FinishWithPeers` | Telegram/SourceFiles/api/api_peer_search.cpp:133-146 | The answer is stored, and delivered if it completes the latest query. |
| `PeerSearchApi.PeerSearchApi.FinishWithSponsored` | Telegram/SourceFiles/api/api_peer_search.cpp:148-160 | The same for the sponsored part. |
| `PeerSearchApi.PeerSearchApi.ClearAll` | Telegram/SourceFiles/api/api_peer_search.cpp:168-178 | Every field is reset, and every known request cancelled, one by one. |
| `PeerSearchApi.PeerSearchApi.CallBack` | Telegram/SourceFiles/api/api_peer_search.cpp:162-166 | The callback is taken away before it is called. |
| `PeerSearchApi.PeerSearchApi.SendOut` | Telegram/SourceFiles/api/api_peer_search.cpp:58-65 | A query is marked as requested and its one or two parts are sent. |
| `Ripple.HueIsNotNeeded` | Telegram/Resources/bot_webview_shell_html/page.js:349-394 | The way through hue and saturation equals scaling every channel by value over maximum, through all six sectors and their corners, whenever the maximum is positive. |
| `Ripple.FractionIs` | Telegram/Resources/bot_webview_shell_html/page.js:371 | The middle channel goes up and down linearly between the corners of the hue circle. |
| `Ripple.BlackBecomesGrey` | Telegram/Resources/bot_webview_shell_html/page.js:366-372 | Black becomes a grey with the new value in every channel. |
| `Ripple.RippleInRange` | Telegram/Resources/bot_webview_shell_html/page.js:367-398 | Every channel is within 0 and 255, and the top one moves by exactly 32. |
| `Ripple.HexByte` | Telegram/Resources/bot_webview_shell_html/page.js:338-343 | A value in range is rounded to its byte in two digits: the clamp changes nothing. |
| `Ripple.TwoDigitsParse` | Telegram/Resources/bot_webview_shell_html/page.js:338-351 | A printed byte parses back to itself. |
| `Ripple.ButtonRippleForBackground` | Telegram/Resources/bot_webview_shell_html/page.js:345-399 | For a colour text the result is the text of the scaled colour, or of a dark grey for black, and there is none for any other text. |
| `Ripple.WithNextValue` | Telegram/Resources/bot_webview_shell_html/page.js:352-398 | The statements from the maximum to the channels compute the specified conversion. |
| `Ripple.HexColors` | Telegram/Resources/bot_webview_shell_html/page.js:346 | A colour text is a hash sign and six hexadecimal digits of either case. |
| `Ripple.RoundIs` | Telegram/Resources/bot_webview_shell_html/page.js:338-343 | A value is rounded to the nearest integer, and up from the middle of two. |

## Left out

- Compression, signatures, key files and file output of the packer, and the check that all packed files lie under one path.
- `hashSha1` for lengths from 2^32 - 64 on, where `block + 64` wraps and the block loop does not end.
- Building MTProto requests and flags, parsing of server types, storing to disk, and everything drawn on screen.
- Bounds of 32-bit counters and ids other than the ones named: counters, request ids and dates are unbounded integers.
- Mesh tools: digits outside ASCII and the limit on the length of integer texts in `int()`, text encodings, and IEEE rounding inside `float()`; a parse is one function with a result or an error.
- WebPages: the order of the pending map by address, the pages being kept in the order in which they were added.
- Stickers: the requests that clear the recent stickers on the server, and what is written to disk afterwards.
- WholeForward: the remaining stars are an exact number; when cut prices below zero raise them beyond 32 bits, the original's addition overflows, which C++ leaves undefined.
- Forward: what `AyuForward` does with a draft that is handed over to it, local messages for a single item, their failure texts, and the list of recent self-forwards.
- Albums: captions with entities, the stars and options of a send, and the retry of a failed paid send, which keeps its album.
- Dialogs: the number of dialogs asked for, and what `applyDialogs` does with the received lists; the contacts and shortcuts requested behind a page.
- InviteLinks: the lists of joined users, join requests apart from their dropping of a slice, and the events fired to the boxes.
- SearchMerged: `MessagesSearch` below it, with its queue of requests and its cache of first pages, which repeats the first page when more is asked for behind an empty one; `disableMigrated`.
- PeerSearch: how a text is converted to a query or found to be a tag; both come with the event.
- ShellFrames: a frame whose content window is gone while it is attached, the viewport events, and real time; a timer only fires or not.
- Simple guards that allow one request at a time, global privacy flags, and peer colours: easy beside the protocols here.
