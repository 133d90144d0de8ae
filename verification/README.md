# Icecast stream and request machinery in Dafny

This project models the in-memory core of the Icecast streaming server and proves what it is for. Eight
components are covered, each as a value-level model whose laws are proved for all inputs and all runs, and,
where the server updates state in place, as classes and methods over arrays, positions and linked nodes that
are proved to do what the value-level model does:

- the incremental EBML/WebM splitter (`Ebml*.dfy`): a five-state parser fed arbitrary slices, two fixed
  buffers, a pending Cluster mark, and what it makes of a stream laid out as RFC 8794 and RFC 9559 say;
- the ICY metadata demultiplexer and multiplexer (`Icy*.dfy`), and the round trip through a relay;
- authenticator stacks (`AuthStack.dfy`) as reference-counted lists with shared tails, and the
  continuation-passing authentication over four stacks (`AuthDecision.dfy`);
- the request pipeline (`RequestQueues.dfy`, `RequestPipeline.dfy`): three linked queues with tail slots that
  are edited while they are walked; and the put-back buffer (`PutBack.dfy`);
- relays: reconciling the list with the configuration (`RelayUpdate.dfy`) and the handshake with relay threads
  (`RelayThreads.dfy`);
- report definitions (`ReportXml.dfy`, `ReportTheorems.dfy`, `ReportPlans.dfy`): depth-bounded expansion of
  templates and references over cyclic databases;
- streaming MD5 (`Md5*.dfy`): buffering, padding and the unrolled block function against the one-shot definition
  of RFC 1321;
- the OpusTags reader (`OpusTags.dfy`) against the layout of RFC 7845.

`Bytes.dfy` and `LinkedLists.dfy` hold what several components share. Socket reads and sends, the clock,
parsers of HTTP and findings about clients are parameters: every theorem holds for all of their answers.
Allocation succeeds; a fresh address is a parameter. Where nodes are shared or relinked (authenticator stacks,
queues, relay lists) the heap is a map from addresses to nodes, so that aliasing is visible in the model.

Where the code and what is said about it differ, the code is followed:

- a splitter that meets a Cluster before any other element never makes anything readable: progress holds if and
  only if the header is not empty (`EbmlTheorems.Progress`, `EbmlTheorems.ClusterFirstStalls`);
- the ICY multiplexer takes the block from the buffer now in hand, so the framing survives a part-sent block
  only if the rest of the new block has the missing length (`IcyMux.FramingIffCompatible`,
  `IcyMux.BlockChangeBreaksFraming`); that length can even be negative (`IcyMux.OffsetBehindBlock`);
- a node freed by a failed shoutcast handshake is still read by the caller, and used again when the freed memory
  reads 0 (`RequestPipeline.Pipeline.HandleOne`); a client switched to TLS on a shoutcast listener shows it
  (`RequestPipeline.FreedNodeIsRead`);
- a received URL is printed into a new title together with all that followed it, as far as there is room
  (`IcyBlocks.UrlText`);
- a live relay thread implies `running` except while its relay is being removed (`RelayThreads.LiveMeansRunning`);
- the OpusTags length reader is named for big-endian words and reads little-endian ones, as the standard wants;
- a comment that contains a zero byte is cut there (`OpusTags.RoundTrip`);
- a sized integer is only read once one byte beyond it is buffered;
- without a video track, a SimpleBlock whose track integer has all value bits set counts as a video block
  (`EbmlMeaning.OpenIsSyncPoint`);
- the copy of a relay's configuration leaves the bind address out (`RelayUpdate.CopyKeepsIdentity`).

## Model

| member | source | states |
|---|---|---|
| `EbmlTheorems.Conservation` | Icecast-Server-master/src/format_ebml.c:493-839 | for every interleaving of written slices and full-size reads in which no call fails, header ++ chunks handed out ++ data buffer ++ unprocessed input is exactly what was written, in order; the header is handed out whole and before any chunk |
| `EbmlTheorems.HeaderIsPrefix` | Icecast-Server-master/src/format_ebml.c:619-782 | the header is complete if and only if the buffer-free element walk of the written bytes meets a Cluster, and is then exactly the bytes before the first one; nothing else is ever published |
| `EbmlTheorems.HeaderIndependence` | Icecast-Server-master/src/format_ebml.c:619-782 | two runs over the same bytes agree on the header, however the bytes were sliced |
| `EbmlTheorems.ClusterBoundaries` | Icecast-Server-master/src/format_ebml.c:453-479 | in every run no chunk has a Cluster of the walk starting inside it, a chunk that starts with one holds its whole tag and is marked by the keyframe status of that very Cluster as it stood when the chunk was handed out, with the walk exactly at the end of the chunk or of the one element whose copying had begun, and every Cluster handed out starts a chunk |
| `EbmlTheorems.SyncPointIsKeyframe` | Icecast-Server-master/src/format_ebml.c:534-577 | as soon as the bytes of a chunk that starts with a Cluster settle whether its first video block is a keyframe, the chunk is a sync point if and only if it is |
| `EbmlMeaning.KeyframeDecides` | Icecast-Server-master/src/format_ebml.c:668-698 | on bytes laid out as the format says: in every run over a stream with elements, a Cluster, further elements and a SimpleBlock (0xA3, size, the video track's integer, two timecode bytes, flags), the first of the video track in that Cluster, the chunk that begins with the Cluster and reaches into the block is a sync point if and only if bit 0x80 of the flags is set; the video track is the TrackNumber of the first TrackEntry with an odd TrackType |
| `EbmlMeaning.OpenIsSyncPoint` | Icecast-Server-master/src/format_ebml.c:539-551 | a chunk that begins with a Cluster is a sync point if it ends within elements of which none is a SimpleBlock of the video track, or if there is no video track (and no SimpleBlock with the reserved track integer, which would then count as video) |
| `EbmlMeaning.OthersContinue` | Icecast-Server-master/src/format_ebml.c:534-555 | a chunk of a well laid out stream that begins at no Cluster is not a sync point |
| `EbmlMeaning.ClusterBeginsChunk` | Icecast-Server-master/src/format_ebml.c:753-779 | every Cluster of a well laid out stream that has been handed out begins a chunk, which holds its whole tag |
| `EbmlMeaning.HeaderIs` | Icecast-Server-master/src/format_ebml.c:642-660 | in every run over elements that are no Clusters followed by a Cluster, the header is the encoding of those elements and nothing else is published |
| `EbmlMeaning.WellFormedAccepted` | Icecast-Server-master/src/format_ebml.c:786-797 | every slice of a well laid out stream is accepted as long as there are at most 131072 bytes before the first Cluster |
| `EbmlMeaning.HeaderFits` | Icecast-Server-master/src/format_ebml.c:786-797 | a run that has met the first Cluster had at most 131072 bytes before it |
| `EbmlMeaning.FailsOnlyIf` | Icecast-Server-master/src/format_ebml.c:625-797 | for all bytes: a slice that fits is rejected only if the walk comes to a malformed integer or there are more than 131072 bytes of elements without a Cluster |
| `EbmlMeaning.BadIsGarbled` | Icecast-Server-master/src/format_ebml.c:636-733 | what is rejected as malformed is an identifier, size or track integer without a length marker, or a TrackNumber or TrackType of no bytes, more than eight or an unknown number |
| `EbmlMeaning.MarksEncoded` | Icecast-Server-master/src/format_ebml.c:642-666 | the Clusters the walk finds in encoded elements are exactly those elements, at their offsets |
| `EbmlLayout.PieceExamined` | Icecast-Server-master/src/format_ebml.c:625-751 | an encoded element, whatever bytes follow, is found with its size, as a Cluster or with what its body says about tracks and keyframes |
| `EbmlLayout.VideoLearned` | Icecast-Server-master/src/format_ebml.c:702-740 | after the elements the video track is the TrackNumber of the first TrackEntry with an odd TrackType |
| `EbmlTheorems.Progress` | Icecast-Server-master/src/format_ebml.c:591-839 | in every reachable state with nothing readable and a full input buffer, the next call, even of zero bytes, fails, uses up a byte or makes a chunk readable if and only if the header is not empty |
| `EbmlTheorems.EmptyHeaderStalls` | Icecast-Server-master/src/format_ebml.c:436-484 | when the first Cluster is at offset 0 nothing ever becomes readable, so no run accepts more than the two buffers hold |
| `EbmlTheorems.ClusterFirstStalls` | Icecast-Server-master/src/format_ebml.c:436-484 | a concrete run whose first bytes are a Cluster tag and which reaches a full input buffer with nothing readable and no progress |
| `EbmlTheorems.HeaderNeverFull` | Icecast-Server-master/src/format_ebml.c:619-700 | while the header is collected a settled parser never sits on a full input buffer |
| `EbmlTheorems.RunInv` | Icecast-Server-master/src/format_ebml.c:493-839 | every run keeps the invariant that ties buffers, pending Cluster mark, flush flag and track information to the walk of the bytes written so far |
| `EbmlTags.VarIntMeaning` | Icecast-Server-master/src/format_ebml.c:892-955 | a variable-length integer of w bytes is accepted exactly when its bytes, read as one big-endian number, are 2^(7w) + v, and then gives v, or the unknown size when v is all ones (section 4 of RFC 8794) |
| `EbmlTags.VarIntStable` | Icecast-Server-master/src/format_ebml.c:898-955 | what was read does not change when bytes are appended |
| `EbmlTags.TagStable` | Icecast-Server-master/src/format_ebml.c:864-890 | the same for element tags |
| `EbmlTags.SizedIntStable` | Icecast-Server-master/src/format_ebml.c:967-998 | the same for sized integers |
| `EbmlTags.ExamineStable` | Icecast-Server-master/src/format_ebml.c:619-751 | the verdict on an element, with its track and keyframe probes, does not change when bytes are appended |
| `EbmlTags.ParseTag` | Icecast-Server-master/src/format_ebml.c:864-890 | a tag takes 2 to 16 buffered bytes, and 16 bytes always suffice to read one |
| `EbmlTags.Examine` | Icecast-Server-master/src/format_ebml.c:619-751 | an element makes the walk move, a Cluster's tag is buffered whole, and 27 bytes suffice for a verdict (which one, on encoded elements: `EbmlLayout.PieceExamined`) |
| `EbmlWalk.MarksSplit` | Icecast-Server-master/src/format_ebml.c:619-782 | the walk by tags alone finds the Clusters the incremental scan has met first, and then those beyond |
| `EbmlWalk.ScanExtend` | Icecast-Server-master/src/format_ebml.c:619-782 | the incremental scan of a stretch and one more element is the scan of the longer stretch |
| `EbmlSplitter.StepKeepsValid` | Icecast-Server-master/src/format_ebml.c:616-832 | every turn of the processing loop keeps the buffer invariants and uses up input or moves down the ladder of states |
| `EbmlSplitter.Run` | Icecast-Server-master/src/format_ebml.c:616-838 | the loop terminates by (bytes left, state rank) and leaves a valid parser with no more input than before |
| `EbmlSession.RunSettles` | Icecast-Server-master/src/format_ebml.c:616-838 | when the loop ends without an error a further turn would change nothing |
| `EbmlSession.FeedKeeps` | Icecast-Server-master/src/format_ebml.c:599-839 | writing a slice keeps the invariant of whole runs |
| `EbmlSession.DrainKeeps` | Icecast-Server-master/src/format_ebml.c:436-584 | reading the available chunk keeps the invariant of whole runs |
| `EbmlSession.NewChunkOk` | Icecast-Server-master/src/format_ebml.c:534-577 | a chunk handed out is aligned with the Clusters and its kind is decided by the status the walk has at that moment |
| `EbmlParser.ParseVarIntAt` | Icecast-Server-master/src/format_ebml.c:898-955 | the in-place reader returns what the value-level parser, whose meaning is proved, returns |
| `EbmlParser.ParseTagAt` | Icecast-Server-master/src/format_ebml.c:864-890 | the same for tags |
| `EbmlParser.ParseSizedIntAt` | Icecast-Server-master/src/format_ebml.c:967-998 | the same for sized integers |
| `EbmlParser.Splitter.constructor` | Icecast-Server-master/src/format_ebml.c:412-431 | a new splitter is the initial parser of the model |
| `EbmlParser.Splitter.GetReadSpace` | Icecast-Server-master/src/format_ebml.c:436-484 | the number of readable bytes and the flush decision are those of the value model |
| `EbmlParser.Splitter.ReadChunk` | Icecast-Server-master/src/format_ebml.c:493-584 | copies the next chunk out and shifts the buffer down; bytes, kind and new state are those of the value model |
| `EbmlParser.Splitter.ReadHeaderChunk` | Icecast-Server-master/src/format_ebml.c:507-532 | hands the header out from its first byte and turns to the clusters when it has been read |
| `EbmlParser.Splitter.ReadClusterChunk` | Icecast-Server-master/src/format_ebml.c:534-577 | hands out the bytes before the next Cluster or all there are, with the sync-point mark of a Cluster at the front |
| `EbmlParser.Splitter.GetWriteSpace` | Icecast-Server-master/src/format_ebml.c:591-595 | the free space of the input buffer |
| `EbmlParser.Splitter.ExamineAt` | Icecast-Server-master/src/format_ebml.c:619-751 | the probes of an element in the input buffer give the verdict of the value model, whose meaning `EbmlLayout.PieceExamined` states, and change no buffer |
| `EbmlParser.Splitter.ParseElement` | Icecast-Server-master/src/format_ebml.c:625-751 | parsing an element is the parsing turn of the value model |
| `EbmlParser.Splitter.BeginCluster` | Icecast-Server-master/src/format_ebml.c:753-782 | starting a Cluster is the starting turn of the value model |
| `EbmlParser.Splitter.CopyHeaderElement` | Icecast-Server-master/src/format_ebml.c:784-808 | copying to the header is the copying turn of the value model |
| `EbmlParser.Splitter.CopyDataElement` | Icecast-Server-master/src/format_ebml.c:809-828 | copying to the data buffer is the copying turn of the value model |
| `EbmlParser.Splitter.Wrote` | Icecast-Server-master/src/format_ebml.c:599-839 | returns -1 exactly when the stream is rejected, and otherwise leaves the arrays and positions in the state the value-level loop ends in |
| `IcyBlocks.TitleBlockProper` | Icecast-Server-master/src/format_mp3.c:230-308 | a built title block has length 1 + 16 times its first byte, starts with the title key, ends with a terminator and holds its title and its URL, from a tag or from the block received last, uncut |
| `IcyBlocks.TitleBlockReads` | Icecast-Server-master/src/format_mp3.c:230-308 | the block reads StreamTitle='artist - title'; or StreamTitle='title'; byte for byte, and there is one exactly if the text with a closing byte is at most 4080 bytes long |
| `IcyBlocks.UrlKept` | Icecast-Server-master/src/format_mp3.c:291-303 | what is printed behind the title starts with what the length accounts for and leaves room for a terminator |
| `IcyBlocks.BlankProper` | Icecast-Server-master/src/format_mp3.c:100-102 | the blank block is proper too |
| `IcyBlocks.RejectedIsIntrinsic` | Icecast-Server-master/src/format_mp3.c:606-629 | as long as the current block is a title, whether a received block ends the stream depends on that block alone |
| `IcyBlocks.NextMetaProper` | Icecast-Server-master/src/format_mp3.c:593-629 | the inline parser produces proper blocks too: an accepted block keeps length 1 + 16 times its first byte and the title key |
| `IcyDemux.FeedIsAudio` | Icecast-Server-master/src/format_mp3.c:560-655 | for every interval the incremental parse of a stream yields the audio of its specification: interval audio bytes, a length byte L, 16 L bytes, and so on |
| `IcyDemux.FeedLossless` | Icecast-Server-master/src/format_mp3.c:560-655 | the stream is its audio woven with its blocks, plus the block in hand |
| `IcyDemux.FeedConcat` | Icecast-Server-master/src/format_mp3.c:560-655 | feeding two slices is feeding their concatenation |
| `IcyDemux.FeedAllConcat` | Icecast-Server-master/src/format_mp3.c:540-655 | the same for any number of slices |
| `IcyFilter.BlocksComplete` | Icecast-Server-master/src/format_mp3.c:583-629 | every block the parse delivers is complete |
| `IcyFilter.MetaAfterProper` | Icecast-Server-master/src/format_mp3.c:593-629 | over any run of received blocks the current block stays a proper title, fit for the multiplexer |
| `IcyFilter.LastTitleText` | Icecast-Server-master/src/format_mp3.c:606-629 | over any run of proper blocks the current text is that of the last title |
| `IcyFilter.Mp3Source.FilterMeta` | Icecast-Server-master/src/format_mp3.c:540-655 | in-place compaction leaves exactly the audio of the parse at the front of the buffer, carries the block in hand and the current title over, keeps that title a proper block and the build offset below the build length (at most 4081), and refuses the buffer and stops the source exactly when a block in it is unacceptable |
| `IcyFilter.Mp3Source.SetTitle` | Icecast-Server-master/src/format_mp3.c:230-311 | a new title, with a tagged or an inline URL, replaces the current block unless it is too long |
| `IcyFilter.Mp3Source.Collect` | Icecast-Server-master/src/format_mp3.c:591-603 | bytes of an unfinished block are added to the block in hand |
| `IcyFilter.Mp3Source.Complete` | Icecast-Server-master/src/format_mp3.c:604-639 | completing a block accepts it exactly when it repeats the current text or is a title, keeps a proper block as the current one, and starts the next interval |
| `IcyFilter.Mp3Source.Judge` | Icecast-Server-master/src/format_mp3.c:612-639 | a block with new text becomes the current one if it is a title and stops the source if not, and nothing else does either |
| `IcyMux.WriteKeeps` | Icecast-Server-master/src/format_mp3.c:370-444 | whatever the socket takes, a write keeps the framing: the wire parses to the audio consumed so far and ends where the sender's counters say |
| `IcyMux.SessionFramed` | Icecast-Server-master/src/format_mp3.c:318-444 | the same over every session of writes |
| `IcyMux.WireShape` | Icecast-Server-master/src/format_mp3.c:318-444 | in every session in which the metadata does not change while a block is part-sent, the wire is the audio consumed so far with a complete block behind each interval bytes, each of them the block due, and the sent part of the next one; the counter never exceeds the interval and equals it inside metadata |
| `IcyMux.RoundTrip` | Icecast-Server-master/src/format_mp3.c:318-655 | in every such session, under any partial-send schedule and in any slicing, stripping what was sent recovers exactly the audio consumed so far; the blocks found are the blocks due, none is rejected, and the relay ends up with the text of the last title completed |
| `IcyMux.BlocksAreDue` | Icecast-Server-master/src/format_mp3.c:318-444 | everything completed in a session is a block due, in order: the new title, one zero byte when the listener has it, or the blank block |
| `IcyMux.SteadyIsSession` | Icecast-Server-master/src/format_mp3.c:318-444 | metadata that does not change while a block is part-sent is enough: no block is completed with another one's rest and no send starts behind its block |
| `IcyMux.WriteUnderway` | Icecast-Server-master/src/format_mp3.c:370-444 | after a write, what has been sent of a block is the front of the block due, and the blocks completed are the blocks due |
| `IcyMux.SessionShape` | Icecast-Server-master/src/format_mp3.c:318-444 | the shape of the wire for every session whose part-sent blocks are completed with rests that fit, changed or not |
| `IcyMux.SessionRoundTrip` | Icecast-Server-master/src/format_mp3.c:318-655 | the round trip for every session whose part-sent blocks are completed with rests that fit, changed or not |
| `IcyMux.FramingIffCompatible` | Icecast-Server-master/src/format_mp3.c:318-364 | with a block part-sent and any proper block due, sending its rest has a result and keeps the framing if and only if the length the code computes, which may be negative, is what is missing of the block begun |
| `IcyMux.BlockChangeBreaksFraming` | Icecast-Server-master/src/format_mp3.c:383-413 | a concrete session after which the next buffer carries another block and the listener takes title bytes for audio |
| `IcyMux.OffsetBehindBlock` | Icecast-Server-master/src/format_mp3.c:328-348 | a concrete session after which the length computed for the next buffer's block is negative |
| `IcyListener.Listener.SendStreamMetadata` | Icecast-Server-master/src/format_mp3.c:318-364 | sends the block due or what is left of it as the value model says, and tells exactly when the computed length is negative, for every state |
| `IcyListener.Listener.WriteBufToClient` | Icecast-Server-master/src/format_mp3.c:370-444 | the result is exactly the number of bytes that went out; state, bytes and position are those of the value model; the counters stay in range; bytes outside a block are sent only when one is pending and the block now due is shorter than what has been sent |
| `IcyListener.WithoutMetadata` | Icecast-Server-master/src/format_mp3.c:370-444 | a listener that asked for no metadata gets exactly the audio |
| `AuthStack.ReachableIsLive` | Icecast-Server-master/src/auth.c:1063-1078 | under the ownership invariant nothing that can be reached from a handle has been freed |
| `AuthStack.LiveIsReachable` | Icecast-Server-master/src/auth.c:1063-1078 | and nothing leaks: every live node is reached from some handle |
| `AuthStack.DropKeeps` | Icecast-Server-master/src/auth.c:1063-1078 | dropping one of several counts keeps each count equal to handles plus live predecessors |
| `AuthStack.FreeKeeps` | Icecast-Server-master/src/auth.c:1063-1078 | freeing a node without handles and predecessors hands its link over as a handle and keeps the invariant |
| `AuthStack.LinkKeeps` | Icecast-Server-master/src/auth.c:1128-1153 | linking a tail with one more count keeps the invariant and extends every stack that ends there |
| `AuthStack.LinkAcyclicIff` | Icecast-Server-master/src/auth.c:1128-1153 | appending keeps the stacks free of cycles if and only if the tail does not already lead to the end of the stack |
| `AuthStack.Stacks.AddRef` | Icecast-Server-master/src/auth.c:1080-1086 | one more handle, one more count, nothing else |
| `AuthStack.Stacks.Release` | Icecast-Server-master/src/auth.c:1063-1078 | one handle less; the invariant is kept and what remains is unchanged |
| `AuthStack.Stacks.Next` | Icecast-Server-master/src/auth.c:1088-1101 | moves the handle to the next node, with the three results of the code |
| `AuthStack.Stacks.Push` | Icecast-Server-master/src/auth.c:1103-1126 | the stack lists its authenticators followed by the new one, so does every stack that shares its end, and no other stack changes; only a new stack costs a handle |
| `AuthStack.Stacks.Append` | Icecast-Server-master/src/auth.c:1128-1153 | links the tail behind the last node with one more count; handles are unchanged |
| `AuthStack.Stacks.GetById` | Icecast-Server-master/src/auth.c:1167-1190 | returns the first authenticator with the id and leaves every node and count as it was |
| `AuthStack.FirstWithIdIs` | Icecast-Server-master/src/auth.c:1167-1190 | what is found is the authenticator at the first position with that id, or there is none |
| `AuthStack.Stacks.Ask` | Icecast-Server-master/src/auth.c:1039-1061 | leading a client through a stack, with the caller and the client holding it on the way, finds the first authenticator that speaks and leaves every node and count as it was |
| `AuthStack.Stacks.GetAnonymousAcl` | Icecast-Server-master/src/auth.c:1192-1215 | returns the ACL of the first anonymous authenticator that serves the method and leaves every node and count as it was |
| `AuthStack.FirstAnonymousIs` | Icecast-Server-master/src/auth.c:1192-1215 | what is found is the ACL at the first position that is anonymous, has an ACL and does not filter the method out, or there is none |
| `AuthDecision.FilteredIff` | Icecast-Server-master/src/auth.c:451-515 | an authenticator is passed over by its filters exactly when its method filter, the first entry for the origin or else the origin policy, or, for web requests the web policy and for admin requests the first used entry for the command or else the admin policy, says no match |
| `AuthDecision.VerdictIsFirst` | Icecast-Server-master/src/auth.c:444-530 | the verdict of a stack is that of its first authenticator that is asked and answers anything but no match |
| `AuthDecision.VerdictOfFirst` | Icecast-Server-master/src/auth.c:444-530 | in terms of the filters themselves: all authenticators before the first that is not silent are not concerned or answer no match, and the verdict is what that one says; open without one |
| `AuthDecision.AskFindsSpeaker` | Icecast-Server-master/src/auth.c:1039-1061 | the walk over counted nodes finds the authenticator that decides the value-level verdict |
| `AuthDecision.Client.StackAddClient` | Icecast-Server-master/src/auth.c:1049-1061 | the continuation gets the verdict of the rest of the stack, whatever the authenticators do on the way |
| `AuthDecision.Client.MoveForward` | Icecast-Server-master/src/auth.c:1039-1047 | an authenticator that passes the client on leaves the verdict to the rest of its stack, and an exhausted stack gives no match |
| `AuthDecision.Client.OnResult` | Icecast-Server-master/src/connection.c:1359-1447 | a stage handles the client or turns to the next stack, and a mount's approval that denies the admin command is passed over |
| `AuthDecision.Client.HandleAuthedClient` | Icecast-Server-master/src/connection.c:1291-1311 | exactly one effect, after the admin command has been looked up again for the final URI: an error when a password is missing, a handler under the client's ACL if the result is an approval and the method is allowed, else a refusal |
| `AuthDecision.Client.HandleAuthentication` | Icecast-Server-master/src/connection.c:1359-1475 | the whole continuation-passing search does what the decision over the four stacks says; the client is handled at most once, and exactly once unless it was answered on the way (busy, redirect, error) or nobody spoke and there is no global stack |
| `AuthDecision.Decider` | Icecast-Server-master/src/connection.c:1359-1469 | the decision is the verdict of the first of the four stacks that was neither open nor passed over, on the request as it then stood, and a mount only decides with an approval covering the admin command |
| `AuthDecision.DispatchIsApproved` | Icecast-Server-master/src/connection.c:1291-1311 | a handler runs only if an authenticator approved whose method, origin, web or admin filters do not say no match, all before it in its stack being silent, under its ACL, with the method allowed, with the command the final URI names and, for a mount, the admin command asked for not denied |
| `AuthDecision.SpeakerDecides` | Icecast-Server-master/src/connection.c:1291-1469 | conversely, wherever the client comes to: the first authenticator there that is not silent decides (a mount's only with an approval that covers the admin command); busy or answering by itself ends the matter, an approval is dispatched under its ACL if the method is allowed and no password is missing, all else is refused |
| `AuthDecision.NobodySpeaks` | Icecast-Server-master/src/connection.c:1359-1381 | if every authenticator at every place is silent the client is refused, and without a global stack nothing is done |
| `RequestQueues.EnqueueSpells` | Icecast-Server-master/src/connection.c:400-406 | writing through the tail appends the node, and the tail is again the final empty slot |
| `RequestQueues.DequeueSpells` | Icecast-Server-master/src/connection.c:412-428 | taking the head leaves the rest in order with a correct tail, also when the queue gets empty |
| `RequestQueues.UnlinkSpells` | Icecast-Server-master/src/connection.c:508-526 | unlinking a node during a walk keeps the others in order and moves the tail back when the node was the last |
| `RequestPipeline.OnlyInside` | Icecast-Server-master/src/connection.c:432-529 | the nodes with a verdict are exactly those of the list for which it was given |
| `RequestPipeline.Pipeline.Sweep` | Icecast-Server-master/src/connection.c:432-529 | a walk keeps the order of what stays, passes nodes on in order, frees the rest, and keeps all three queues well-formed and disjoint |
| `RequestPipeline.Pipeline.ProcessRequestQueue` | Icecast-Server-master/src/connection.c:432-529 | the request queue is what stayed followed by the shoutcast clients sent back, the body queue gains those owing a body, the connection queue is empty; every node is in exactly one queue, at most twice in the request queue and once in the body queue over its life; the nodes looked at after being freed are exactly those of failed shoutcast handshakes |
| `RequestPipeline.Pipeline.ProcessBodyQueue` | Icecast-Server-master/src/connection.c:581-620 | clients needing more data stay in order, the others go back to the connection queue in order and are marked so that they never enter the body queue again |
| `RequestPipeline.Pipeline.GetConnection` | Icecast-Server-master/src/connection.c:412-428 | takes the first node of the connection queue, unlinked, or none |
| `RequestPipeline.Pipeline.HandleOne` | Icecast-Server-master/src/connection.c:1512-1685 | one client leaves the connection queue: back for headers, to the body queue, or out, as its shoutcast stage, body mark and findings say; it joins the body queue exactly if its headers parse, it is not at the first shoutcast stage, its body was not tried, the request is neither SOURCE nor PUT, the announced length is not read or, without one, the end not reached, and the rest does not arrive at once; its entries are counted; its node is read after being freed exactly when the stage is 1 without a password line or 2 with headers that do not parse, and used when the freed memory reads 0 |
| `RequestPipeline.Pipeline.PassOn` | Icecast-Server-master/src/connection.c:1586-1627 | a client past the handshake joins the body queue exactly when a body is outstanding, was not tried before and does not arrive at once; else its node is freed |
| `RequestPipeline.Pipeline.HandleShoutcast` | Icecast-Server-master/src/connection.c:1084-1163 | the password line sends a client back for its headers, its headers make it a parsed request, and exactly the failing handshakes free the node |
| `RequestPipeline.Pipeline.HandleConnections` | Icecast-Server-master/src/connection.c:1558-1685 | empties the connection queue; clients owing a body and clients sent back for headers join their queues in order; the nodes read after being freed are exactly those of failed handshakes |
| `RequestPipeline.FreedNodeIsRead` | Icecast-Server-master/src/connection.c:1753-1757 | a client switched to TLS on a shoutcast listener is one: it comes to the connection stage without a password line, and its node is read after it has been freed |
| `RequestPipeline.Pipeline.AddRequest` | Icecast-Server-master/src/connection.c:625-629 | appends to the request queue; allowed only for a first entry or after the password stage |
| `RequestPipeline.Pipeline.AddBody` | Icecast-Server-master/src/connection.c:533-541 | appends to the body queue; a node that was never tried has never been there |
| `RequestPipeline.Pipeline.AddConnection` | Icecast-Server-master/src/connection.c:400-406 | appends to the connection queue |
| `RequestPipeline.Pipeline.Accept` | Icecast-Server-master/src/connection.c:658-691 | a new node of its listener's shoutcast stage joins the request queue |
| `RequestPipeline.Pipeline.QueueClient` | Icecast-Server-master/src/connection.c:1753-1757 | a client switched to TLS joins the connection queue with a new node of its listener's shoutcast stage |
| `PutBack.TakeInOrder` | Icecast-Server-master/src/connection.c:315-355 | a read returns the next bytes, first those put back, then those of the socket; bytes stay behind only if the request was filled without the socket |
| `PutBack.InOrder` | Icecast-Server-master/src/connection.c:443-507 | over every run, through password lines, partial reads, errors and kept-alive requests, the headers followed by everything read later is exactly what the socket delivered, in order |
| `PutBack.PutsBackIntoEmpty` | Icecast-Server-master/src/connection.c:443-507 | in every run the put-back buffer is empty once the header stage has read, so nothing is put back behind later bytes |
| `PutBack.HeadersExactly` | Icecast-Server-master/src/connection.c:443-524 | in every run, when a visit of the header stage finds the end of the headers, the parser gets of the bytes not yet used exactly those up to it, and all behind them are put back |
| `PutBack.PasswordExactly` | Icecast-Server-master/src/connection.c:1093-1129 | when a password line is taken, exactly its bytes are used and those behind it stay in the header buffer |
| `PutBack.NothingFound` | Icecast-Server-master/src/connection.c:443-524 | a visit that finds nothing closes the connection if the buffer is full, the peer has closed it or the socket has failed for good, and otherwise changes nothing |
| `PutBack.ReadsGoOn` | Icecast-Server-master/src/connection.c:315-364 | in every run later reads go on where the last reader ended, each with as many bytes as are there and asked for |
| `PutBack.Connection.ReadBytes` | Icecast-Server-master/src/connection.c:315-355 | fills the buffer and returns as the value-level read says, touching nothing outside the requested range |
| `PutBack.Connection.PutBack` | Icecast-Server-master/src/connection.c:366-394 | the bytes go behind those already in the buffer |
| `PutBack.Request.Collect` | Icecast-Server-master/src/connection.c:443-524 | one visit of the header stage is the step of the run model, for any rule that finds the end of the headers |
| `PutBack.Request.DropPassword` | Icecast-Server-master/src/connection.c:1093-1129 | the password line leaves the buffer and the rest moves to its front |
| `PutBack.Request.Parse` | Icecast-Server-master/src/connection.c:1575-1590 | the parser gets exactly the collected headers |
| `PutBack.Request.Read` | Icecast-Server-master/src/connection.c:357-364 | a later read continues where the headers ended |
| `PutBack.Request.Reuse` | Icecast-Server-master/src/client.c:193-222 | the new connection takes over the put-back bytes and the old one is left without |
| `RelayUpdate.Partition` | Icecast-Server-master/src/slave.c:643-701 | kept and cleaned-up relays are disjoint and together exactly the old ones, the cleaned-up ones in their old order; no relay is used twice and all others are new |
| `RelayUpdate.RemainingIsDifference` | Icecast-Server-master/src/slave.c:643-701 | counted by mount and upstreams, the relays to clean up are the old ones less the configured ones: none is stopped that is still asked for, none kept beyond that |
| `RelayUpdate.Served` | Icecast-Server-master/src/slave.c:643-701 | the i-th configuration has its own relay with the same mount point, as many upstreams, each with equal server, port, mount and metadata setting, the same for the default, and its on-demand setting; a kept relay is otherwise unchanged, a new one is a copy, and the others are untouched |
| `RelayUpdate.ClaimedRight` | Icecast-Server-master/src/slave.c:643-701 | a configuration only takes over a relay that agrees with it in all these fields, and if it takes none, no relay that is stopped agrees with it |
| `RelayUpdate.Stable` | Icecast-Server-master/src/slave.c:643-701 | applying the same configuration again stops no relay and starts none |
| `RelayUpdate.CopyKeepsIdentity` | Icecast-Server-master/src/slave.c:122-186 | a relay made from a configuration never counts as changed against it and has its credentials, although the bind address is not copied |
| `RelayUpdate.UpstreamChanged` | Icecast-Server-master/src/slave.c:591-611 | changed exactly when server, port, mount or metadata setting differ |
| `RelayUpdate.RelayChanged` | Icecast-Server-master/src/slave.c:613-635 | changed exactly when the number of upstreams differs or one of them, or the default, differs in server, port, mount or metadata setting; otherwise the on-demand setting is taken over |
| `RelayUpdate.Relays.Find` | Icecast-Server-master/src/slave.c:652-667 | stops at the first relay that fits, with the slot before it, and touches only that relay's on-demand setting |
| `RelayUpdate.Relays.MoveOne` | Icecast-Server-master/src/slave.c:649-682 | the relay found, or a new one, moves to the front of the new list and the old list closes up |
| `RelayUpdate.Relays.UpdateRelays` | Icecast-Server-master/src/slave.c:643-701 | relinking in place yields exactly the two lists and the configurations the theorems speak about |
| `RelayThreads.RunsKeep` | Icecast-Server-master/src/slave.c:491-583 | every interleaving of the slave loop with relay threads keeps the handshake invariant |
| `RelayThreads.NotFreedBeforeJoin` | Icecast-Server-master/src/slave.c:704-735 | in every interleaving the relay of an unjoined thread exists |
| `RelayThreads.OneThreadPerRelay` | Icecast-Server-master/src/slave.c:528-583 | a relay never has two unjoined threads |
| `RelayThreads.LiveMeansRunning` | Icecast-Server-master/src/slave.c:528-735 | an unjoined thread means that its relay is running, except exactly while the slave loop is stopping that relay |
| `RelayThreads.StoppedWhileLive` | Icecast-Server-master/src/slave.c:710-721 | an interleaving that shows the exception: a working thread whose relay is not running |
| `RelayThreads.RunningMeansThread` | Icecast-Server-master/src/slave.c:554-572 | between checks a relay runs if and only if it has an unjoined thread, the one in its handle |
| `RelayThreads.JoinsAreSound` | Icecast-Server-master/src/slave.c:562-572 | every join is on an existing, unjoined thread, and a check only waits for one that has finished its work |
| `RelayThreads.FinishedIsReaped` | Icecast-Server-master/src/slave.c:561-572 | in every reachable state between checks, once the thread of a relay has exited, a check joins it and leaves the relay stopped, unmarked and without a handle; nothing else changes |
| `RelayThreads.DueIsStarted` | Icecast-Server-master/src/slave.c:528-560 | a due check of a stopped relay whose mount is, or can be, reserved leaves it running with the new working thread in its handle; nothing else changes |
| `RelayThreads.OtherwiseUnchanged` | Icecast-Server-master/src/slave.c:491-583 | every other check changes nothing but the reservation |
| `RelayThreads.RemoveStops` | Icecast-Server-master/src/slave.c:704-735 | removing a relay that does not run frees it at once; one that runs is told to stop and waited for |
| `RelayThreads.StoppedIsFreed` | Icecast-Server-master/src/slave.c:715-724 | in every reachable state in which the loop waits for a relay it stops, once the thread has exited, it is joined and the relay freed; nothing else changes |
| `RelayThreads.ThreadsFinish` | Icecast-Server-master/src/slave.c:454-487 | in every reachable state a thread can mark its relay and exit, whatever the loop does, so the loop never waits for a thread that cannot finish |
| `ReportTheorems.BuildSound` | Icecast-Server-master/src/reportxml.c:1125-1271 | every definition built obeys the schema, whatever the database holds and however its definitions refer to each other; the recursion ends by (depth, kind of call, children left) and depth never gets negative |
| `ReportTheorems.ReportSound` | Icecast-Server-master/src/reportxml.c:1279-1405 | every report built, from any database, obeys the schema |
| `ReportTheorems.CopySound` | Icecast-Server-master/src/reportxml.c:524-599 | whatever the node, a copy that is made obeys the schema |
| `ReportTheorems.AttachAllSound` | Icecast-Server-master/src/reportxml.c:1054-1123 | whatever is attached, a valid parent stays valid and keeps its type |
| `ReportTheorems.TemplateCycle` | Icecast-Server-master/src/reportxml.c:1175-1197 | definitions whose templates lead round in circles are never built, whatever the depth |
| `ReportTheorems.CopyIsIdentity` | Icecast-Server-master/src/reportxml.c:524-599 | a plain copy of a node that obeys the schema is that node |
| `ReportTheorems.PlainIsCopied` | Icecast-Server-master/src/reportxml.c:524-594 | expanding a tree without references to definitions of the database copies it, at any depth |
| `ReportPlans.TemplateBuild` | Icecast-Server-master/src/reportxml.c:1182-1271 | a definition with a chain of templates of any length is built if and only if the chain is no longer than the depth, and then has the children of all definitions of the chain, the last template's first, each marked with the outermost definition, not beyond its own, whose own children are of one type |
| `ReportPlans.PlanBuild` | Icecast-Server-master/src/reportxml.c:1054-1271 | a definition with any nesting of templates and references, given the depth it takes, is built with the content read off the database: the template's children followed by what stands for its own, each reference replaced by the children of what it refers to, all marked if its own children are of one type |
| `ReportPlans.PlanReport` | Icecast-Server-master/src/reportxml.c:1279-1405 | the report of such a definition is empty if it has no children, else has them as incidents in the report or as states in one incident, told the definition they come from; there is none if the leading type is another or a child does not belong there |
| `ReportPlans.ReportIs` | Icecast-Server-master/src/reportxml.c:1279-1405 | the same for every definition that is built, whatever the database |
| `ReportPlans.MarkAllIs` | Icecast-Server-master/src/reportxml.c:1237-1260 | marking the children of a definition never fails and sets the one attribute on each |
| `ReportTheorems.AttachAllAppends` | Icecast-Server-master/src/reportxml.c:1054-1123 | attaching only adds nodes behind those already there, the expansions in order |
| `ReportTheorems.AddChildValid` | Icecast-Server-master/src/reportxml.c:744-784 | an accepted child keeps the node valid |
| `ReportTheorems.SetAttributeValid` | Icecast-Server-master/src/reportxml.c:684-742 | an accepted attribute keeps the node valid |
| `ReportTheorems.NewNodeValid` | Icecast-Server-master/src/reportxml.c:380-429 | a fresh node with its default attributes is valid |
| `Md5Stream.FoldConcat` | Icecast-Server-master/src/md5.c:118-128 | folding the block function over two messages of whole blocks is folding it over their concatenation |
| `Md5Stream.CountAdds` | Icecast-Server-master/src/md5.c:87-96 | the two 32-bit words with carry count bits modulo 2^64 |
| `Md5Stream.CountsFill` | Icecast-Server-master/src/md5.c:98-99 | the low word alone tells how full the block is |
| `Md5Stream.PaddedWhole` | Icecast-Server-master/src/md5.c:137-176 | the padded message is a whole number of blocks |
| `Md5Context.PaddingIs` | Icecast-Server-master/src/md5.c:137-176 | the last block or two are the padding of sections 3.1 and 3.2 of RFC 1321 |
| `Md5Context.Context.constructor` | Icecast-Server-master/src/md5.c:69-78 | the context of the empty message |
| `Md5Context.Context.Update` | Icecast-Server-master/src/md5.c:84-131 | after any slice the context holds the longer message: the block function folded, by the unrolled code, over all full blocks, the tail bytes, and the bit count modulo 2^64 |
| `Md5Context.Context.Final` | Icecast-Server-master/src/md5.c:137-180 | the digest is the sixteen bytes of sections 3.1 to 3.5 of RFC 1321 for the whole message, and the context is wiped |
| `Md5Context.Context.ProcessBlock` | Icecast-Server-master/src/md5.c:122-124 | running the unrolled transformation on the block in hand folds that block in |
| `Md5Context.Digest` | Icecast-Server-master/src/md5.c:69-180 | any sequence of updates followed by the end gives, by the unrolled code, the MD5 of the concatenation |
| `Md5Transform.FIsAux` | Icecast-Server-master/src/md5.c:182-188 | the optimised round functions are F, G, H and I of section 3.4 of RFC 1321 |
| `Md5Transform.StepIs` | Icecast-Server-master/src/md5.c:191 | a step with the word, constant and shift of operation i is that operation of the standard |
| `Md5Transform.FourSteps` | Icecast-Server-master/src/md5.c:198-273 | four steps that rename the registers are four operations that move them |
| `Md5Transform.Transform` | Icecast-Server-master/src/md5.c:198-279 | the 64 unrolled steps are the four rounds of section 3.4 of RFC 1321, in its order of words, constants and shifts, added to the old state |
| `Md5Transform.BlockWords` | Icecast-Server-master/src/md5.c:52-63 | the words put together by shifts are the words of the block, low-order byte first |
| `Md5Transform.ShiftedIsValued` | Icecast-Server-master/src/md5.c:57-58 | four bytes put together by shifts and ors are their value, low-order byte first |
| `Md5Transform.TransformBlock` | Icecast-Server-master/src/md5.c:122-124 | a full block advances the state by the block processing of the standard |
| `OpusTags.RoundTrip` | Icecast-Server-master/src/format_opus.c:69-160 | reading the section 5.2 of RFC 7845 encoding of a vendor and comment list, with anything behind it, gives back exactly that list if and only if no comment contains a zero byte |
| `OpusTags.DecodeEncoded` | Icecast-Server-master/src/format_opus.c:69-160 | for arbitrary comments, each is given up to its first zero byte |
| `OpusTags.DecodeOnlyEncoded` | Icecast-Server-master/src/format_opus.c:69-160 | a packet yields a list only if it is laid out as the standard says |
| `OpusTags.ReadWord` | Icecast-Server-master/src/format_opus.c:40-51 | the shifting reader never wraps and gives the little-endian word |
| `OpusTags.Plugin.AddComment` | Icecast-Server-master/src/format_opus.c:124-137 | stale bytes in the reused buffer never show up in a comment |
| `OpusTags.Plugin.ReadComments` | Icecast-Server-master/src/format_opus.c:111-160 | the loop gives the parsed list, or an empty list when one comment does not fit, with the cursor inside the packet throughout |
| `OpusTags.Plugin.HandleOpusTags` | Icecast-Server-master/src/format_opus.c:69-160 | for every packet the outcome is the full list, an empty list, or the list unchanged, as the decoder on values says |

## Left out

- The EBML driver's loop (`ebml_get_buffer`) is any interleaving of written slices and full-size reads; partial reads of the header, signed sized integers and the element id of a tag are not modelled.
- Charset conversion of titles and stream statistics in `format_mp3.c`; reading a source in packets of 1400 bytes is covered as any slicing.
- Authenticators that answer from a queue and their threads, the reference counts of authenticators themselves, and locking: the decision is modelled for immediate authenticators, a full queue being one of the answers.
- Mount lookup, ACL contents and admin command names are parameters of the decision.
- AuthStack.Stacks.Append: the tail must not already lead back to the end of the stack, since the code would then, and only then, make a cycle (`AuthStack.LinkAcyclicIff`).
- RequestPipeline.Pipeline.HandleOne: what happens to a client after it has left the queues, or to a freed node the stage goes on with, is not modelled.
- IcyListener.Listener.SendStreamMetadata: says which calls compute a negative length, not what they then send from behind the block or what the counters become.
- IcyListener.Listener.WriteBufToClient: the same for the calls that make such a send.
- Concurrent calls into the request queues: the stages are atomic.
- The search for the end of the headers, chunked transfer decoding and body buffers: the put-back theorem holds for every rule that finds the end.
- What a relay thread does between its start and its cleanup mark, the timers and on-demand rules: both are free choices in `RelayThreads`.
- Freeing configurations, the source object of a relay and the slave loop's list fetching.
- The contents of definitions with a reference that the depth cuts off or that is not built: what is proved of them is `ReportTheorems.BuildSound` and `ReportTheorems.AttachAllAppends`.
- In-place updates of report nodes and the database tree: nodes are values, which loses the sharing of attribute and child arrays; parsing and rendering of reports, and searching nodes.
- The OpusHead header and the choice of header by signature.
- Sockets, TLS, HTTP and XML parsing, Ogg codecs, file serving, playlists, events and statistics.
