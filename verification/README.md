# UnionDesk: what its protocols guarantee

A Dafny model of the parts of UnionDesk that two machines have to agree on, with proofs about all their
runs. `dafny verify dfyconfig.toml` checks everything.

| file | what it models |
|---|---|
| `Wrappers`, `Geometry`, `Identity` | options and results; rectangles, sides and the stitched desktop; the order of device ids |
| `Layout`, `Edges` | where a peer's desktop is placed beside the local one, where the cursor enters and returns, and which point of an edge goes to which |
| `Handover` | one engine's keyboard and mouse handover: a function from state and event to state, and its invariants |
| `Handing` | when a handover begins and ends: ticks, sharing, sessions that end, settling, the release shortcut |
| `Relay` | what the user does on the controlling machine happens on the controlled one |
| `Engine` | the engine as a class whose handlers update its fields, each proved to take the step of `Handover` |
| `Protocol` | `Enter`, `Release` and `ReturnHome` between two machines over two message queues |
| `Pair` | two engines of `Handover` joined by a session; every step is a step of `Protocol`, or none |
| `Orphan` | a run of two engines that leaves one controlled by nobody |
| `Visit` | one visit of a cursor to the other machine, from the push at the edge to both cursors at rest |
| `Codec`, `Session`, `Progress` | file chunks and records byte by byte; two queues, the writer and its nonce, the stream, the reader; and that what is queued gets written |
| `Paths`, `Naming` | validation of offered names and paths, names that step on nothing, and how they are spelt |
| `Tree` | flattening a file tree into an offer |
| `Transfer`, `Receiving` | streaming files out, and the receiver: as functions, and as a class proved to compute them |
| `Delivery`, `Disks` | what the receiver guarantees over runs: separation, fidelity, accounting, a disk that stays a tree |
| `Lifecycle` | the states a transfer goes through, and its numbers |
| `Journey` | a file's whole way: cut, queued, sealed, read back, written down |
| `Placing`, `Rebuild` | a tree flattened, streamed, and written down again, under an empty directory or onto what is there |
| `Room` | how many names and entries leave a free name at hand throughout a run |
| `Trust` | sessions, the peer store and pinned keys |
| `Pairing` | how a machine comes to be trusted, and what pairing codes contribute |
| `Dialling` | two machines that dial each other, and connections whose end is reported late |
| `Clipboard`, `Copying` | the clipboard worker, and a copy that reaches the other machine |

State that the program updates in place is held in classes (`Engine`, `SessionWriter`, `Collector`,
`FileReceiver`, `PeerStore`, `TrustKeeper`, `ClipboardWorker`). Each has a `View()`, and each method's
postcondition equates the new view with a function of the old one. Lemmas about whole runs speak about
those functions, so they hold of the classes. The table names the event loops, the dispatching methods
and the handlers that loop themselves; the other handlers have contracts of the same form.

## Parameters and assumptions

- The input backend is a value that records the cursor, the grab and what is pressed. Injecting a key fails
  exactly when the platform has no mapping for it; releasing a capture and warping the cursor succeed.
- Sealing and opening a record are a pair of functions of a 64-bit nonce that undo each other on equal nonces,
  fail on different ones and add 16 bytes (section 5.1 of the Noise Protocol Framework, revision 34).
  `Session.AssumptionsCanBeMet` and `Clipboard.AssumptionsCanBeMet` show that the assumptions about parameters
  are consistent.
- JSON loses nothing. Messages with coordinates that are not numbers are therefore outside the model.
- The clipboard's hash has no collisions and its PNG codec is a pair of functions. That pictures read back
  as they were is assumed only where a lemma says `Lossless`.
- A clock reading, a drawn code, how short a read is, what the file system refuses, and the choice the
  operating system makes among ready queues are arguments of the step concerned.
- A failing write of a record is a stream cut short somewhere in it: proved for every place to cut.

## Where the code and what is said about it differ

- The sender accepts names with a colon; the receiver refuses every path that has one
  (`Paths.OfferedPathsAreAcceptedIffNoColon`).
- A message may pass the encoder's length check and still be too long to seal
  (`Session.MessagesAcceptedButNotSent`).
- A machine can end up controlled by nobody (`Orphan.ControlledCanBeOrphaned`); only the controlling side
  is never orphaned. `Protocol.ControlledIffControlling` says exactly when it happens.
- A clipboard payload that is a list of files is not written but is remembered as if it were, so text that
  was there all along is relayed again (`Clipboard.FileListsRelayOldText`). `Clipboard.AppliedIsEchoedIff`
  says exactly which payloads are followed by a report.
- The connection dialled by the machine with the smaller id is meant to be kept. If it comes up second it
  replaces the other one, and the report of that one's end, which names only the machine, ends it too
  (`Dialling.KeptConnectionIsLost`). `Dialling.KeptIffFirst` says exactly when it is kept.
- A pairing code is shown, but a machine is trusted without one as soon as it sends that it accepts
  (`Pairing.AcceptanceNeedsNoCode`), and the three attempts start again with every handoff and connection
  (`Pairing.HandoffShowsACodeIff`, `Pairing.CountingStartsAgain`). `Pairing.TrustOverRuns` says exactly who is
  trusted.
- A file received over a longer one keeps that one's end (`Rebuild.TreeArrives`,
  `Rebuild.OverwrittenIsReplacedIff`).
- A machine stays controlled by one it has no session with after it disconnects from it; `Handing.OwnerGoneIff`
  says what else leads there, and `Handing.SessionEndFreesTheMachine` that a session's end does not.
- Empty files send no chunk and are never created. `Delivery.FilesArriveAsSent` and `Rebuild.TreeRoundTrip`
  state this as it is.
- With 9,999 names in a directory a new file is given a name that exists
  (`Paths.UniquePathIsFreeIffRoom`, `Paths.FewNamesLeaveRoom`, `Transfer.ExistingFileIsChosenIffNoRoom`).

## Model

| member | source | states |
|---|---|---|
| Protocol.NoOrphanedController | crates/ud-engine/src/engine.rs:1747-1807 | whatever takeovers, releases and returns cross in flight: with nothing on its way, a controlling machine's partner is controlled, and the two never both control |
| Protocol.RunKeepsInv | crates/ud-engine/src/engine.rs:1474-1543 | the two-sided invariant behind it, kept by every run: while a machine controls, its takeover is the last thing it sent, or its partner is controlled, or something on its way back will end it |
| Protocol.DrainingConverges | crates/ud-engine/src/engine.rs:1515-1543 | from any reachable state, delivering only what is in flight leads to one state, whatever the order |
| Protocol.DeliveryDoesNotChangeTheOutcome | crates/ud-engine/src/engine.rs:1759-1803 | the outcome of draining is the same before and after any single delivery |
| Protocol.DrainingTerminates | crates/ud-engine/src/engine.rs:1515-1543 | no more deliveries are possible than the backlog counts, a `ReturnHome` counting as two |
| Protocol.DeliveringShrinksTheBacklog | crates/ud-engine/src/engine.rs:1515-1543 | every delivery makes the backlog smaller, though it may be answered |
| Protocol.SimultaneousTakeover | crates/ud-engine/src/engine.rs:1757-1772 | of two takeovers that cross, the machine with the smaller id wins and the other ends up controlled |
| Protocol.ControlledCanBeOrphaned | crates/ud-engine/src/engine.rs:1794-1803 | a run after which one machine is controlled by nobody |
| Orphan.ControlledCanBeOrphaned | crates/ud-engine/src/engine.rs:1323-1352 | two engines at rest reach such a state in eight steps, each with its settle time, edges and pushes; nothing is on its way then |
| Protocol.ControlledIffControlling | crates/ud-engine/src/engine.rs:1747-1807 | at rest a machine is controlled exactly when the other controls it, but for one whose partner's last spell of control ended without a release being sent; both directions |
| Pair.RunRefines | crates/ud-engine/src/engine.rs:1298-1472 | every run of two joined engines is a run of the protocol |
| Pair.TakeRefines | crates/ud-engine/src/engine.rs:1065-1071 | every step of the two engines, with its messages, is one protocol action or none |
| Pair.ArrivalRefines | crates/ud-engine/src/engine.rs:1747-1807 | an arriving message changes an engine's mode and is answered as the protocol says; relayed input changes no mode |
| Pair.LocalEventRefines | crates/ud-engine/src/engine.rs:1298-1355 | whatever else happens at an engine is one protocol move at most, with the message belonging to it |
| Pair.NoOrphanedController | crates/ud-engine/src/engine.rs:1747-1807 | no orphaned controller, for the engines themselves with all their state |
| Pair.ControlledIffControlling | crates/ud-engine/src/engine.rs:1747-1807 | the same exact condition for the engines themselves, with no control message in flight |
| Pair.DrainingConverges | crates/ud-engine/src/engine.rs:1515-1543 | from any reachable state, letting messages arrive, relayed input among them, leads to one pair of modes: at most one engine controls, and its partner is controlled |
| Pair.ArrivalsConverge | crates/ud-engine/src/engine.rs:1515-1543 | from any state of the pair, the modes reached do not depend on the order and times of the arrivals |
| Pair.ReachableIsBacked | crates/ud-engine/src/engine.rs:1474-1543 | the two-sided invariant holds of the engines in every reachable state |
| Pair.DrainingTerminates | crates/ud-engine/src/engine.rs:1515-1543 | letting messages arrive comes to an end |
| Visit.Takeover | crates/ud-engine/src/engine.rs:1357-1472 | from rest, an engaging tick and one delivery: the other machine is controlled with the link's return side, its cursor at the entry point the first machine computed, and the first remembers that point |
| Visit.Homecoming | crates/ud-engine/src/engine.rs:1515-1543 | a hand-back and its two deliveries leave both machines at rest, the visitor's cursor at the return point of the exit and the other's at the exit, with nothing pressed, grabbed or in flight |
| Visit.EnteringStaysIff | crates/ud-engine/src/engine.rs:1322-1352 | a tick at the landing point leaves an entered machine alone exactly if its edge tolerance is below the inset, or it is settling, or the cursor is not pushing outward |
| Visit.ComingHomeStays | crates/ud-engine/src/engine.rs:1357-1400 | a tick at the landing point pushes no link on the edge the cursor came home over; without another link pushed, the machine stays at rest |
| Handing.TickEngagesIff | crates/ud-engine/src/engine.rs:1298-1436 | exactly when a tick takes control: at home, with a backend that may capture and permission, sharing on, not settling, no capture left over, and the first link pushed leading to a connected machine |
| Handing.TickHandsBackIff | crates/ud-engine/src/engine.rs:1322-1352 | exactly when a tick hands control back |
| Handing.EngagingPlacesThePeer | crates/ud-engine/src/engine.rs:1395-1436 | the other machine is placed along a configured link, by the displays its session last reported |
| Handing.SharingOffEndsControl | crates/ud-engine/src/engine.rs:663-670 | turning sharing off gives control back, and over any run until it is on again this machine controls no other |
| Handing.SessionEndFreesTheMachine | crates/ud-engine/src/engine.rs:965-983 | after a session ends no handover names its machine, nothing that machine pressed is down, and a handover with another goes on |
| Handing.OwnerGoneIff | crates/ud-engine/src/engine.rs:675-690 | a machine becomes controlled by one without a session exactly by disconnecting from it, or by obeying a takeover from one without a session |
| Handing.OwnerGoneOnlyBy | crates/ud-engine/src/engine.rs:1747-1793 | the same over every run |
| Handing.NothingStaysDown | crates/ud-engine/src/engine.rs:1794-1828 | a release, a reset, handing back and the end of the owner's session each let go of everything |
| Handing.QuietAfterLanding | crates/ud-engine/src/engine.rs:1545-1549 | for 300 milliseconds after a cursor was put somewhere for a handover, no tick begins or ends one |
| Handing.EscapeComesHomeIff | crates/ud-engine/src/engine.rs:1645-1678 | Escape with exactly the modifiers of the setting comes home; anything else is relayed |
| Handing.TwoTapsComeHomeIff | crates/ud-engine/src/engine.rs:1645-1678 | of two taps of scroll lock the second comes home exactly if it follows within 400 milliseconds |
| Relay.WhatIsDoneHereHappensThere | crates/ud-engine/src/engine.rs:1604-1643 | over any series of captured events that arrive, the other machine's cursor is where this one believes it to be, and every button and relayed key there is as the user left it |
| Relay.RelayedIsInjected | crates/ud-engine/src/engine.rs:1680-1730 | one event moves that cursor by the scaled movement, or presses or releases exactly the button or key concerned |
| Handover.NoStuckKeys | crates/ud-engine/src/engine.rs:1680-1730 | over every run, whatever a peer pressed and is still down is on record to be released, and nothing is down unless controlled |
| Handover.RunKeepsSound | crates/ud-engine/src/engine.rs:1811-1828 | held sets are empty unless controlled and cover what is down; a grab implies an active capture; controlling implies it too |
| Handover.ControllingMeansCapturing | crates/ud-engine/src/engine.rs:1560-1588 | in every reachable state a controlling machine captures, so reconciling only ever lets go |
| Handover.TickReconcilesCapture | crates/ud-engine/src/engine.rs:1298-1302 | after every cursor tick, capturing and controlling are equivalent, and input is swallowed only while controlling |
| EngineActor.Engine.FindPushedLink | crates/ud-engine/src/engine.rs:1357-1372 | the first enabled link whose edge the cursor is pushed at, or proof that there is none |
| EngineActor.Engine.ReleaseHeldInput | crates/ud-engine/src/engine.rs:1809-1828 | the two loops release exactly what was held, in any order |
| EngineActor.Engine.Handle | crates/ud-engine/src/engine.rs:1298-1828 | every event is handled in place by the step `Step` takes: cursor ticks, engaging and refusing to, captured and relayed input, the shortcut, control messages, sessions that end |
| EngineActor.Engine.HandleAll | crates/ud-engine/src/engine.rs:586-657 | the engine's loop computes `Run`, so everything proved of runs holds of it |
| Layout.MirroredLinksAgree | crates/ud-core/src/layout.rs:44-130 | for mirrored links the placements have negated offsets, and the entry point on one machine is the return point on the other, for every cursor |
| Layout.PlacementsAreInverse | crates/ud-core/src/layout.rs:20-75 | converting to the other machine's coordinates and back with the mirrored placement changes nothing |
| Layout.MapFractionStaysInRange | crates/ud-core/src/layout.rs:90-98 | every mapped fraction lies within the target range, reversed and degenerate ranges included |
| Layout.MapFractionRoundTrip | crates/ud-core/src/layout.rs:90-98 | mapping there and back is the projection onto the range |
| Layout.ReturnAfterEntry | crates/ud-core/src/layout.rs:77-130 | returning after entering is the projection of the cursor onto the linked stretch of the edge, for all four sides |
| Layout.EntryAfterReturn | crates/ud-core/src/layout.rs:77-130 | the same the other way round |
| Layout.RoundTripIsLevelInsideTheRange | crates/ud-core/src/layout.rs:77-130 | along the edge the round trip is the identity inside the range |
| Layout.LandingNeverRearms | crates/ud-core/src/layout.rs:12-18 | a landing hits its edge exactly if the tolerance reaches the inset, and is on the target desktop exactly if that is as deep as the inset |
| Edges.EntryIsInProportion | crates/ud-core/src/layout.rs:100-116 | a cursor comes in as far along the remote stretch as it left along the local one, as a cross product; beyond an end it counts as at that end |
| Edges.ReturnIsInProportion | crates/ud-core/src/layout.rs:118-130 | the same on the way back |
| Edges.EndsMeetEnds | crates/ud-core/src/layout.rs:90-98 | the first end of one stretch goes to the first of the other and the second to the second, both ways, reversed ranges included |
| Edges.StraightAcross | crates/ud-core/src/layout.rs:48-75 | between stretches of the same length and direction a cursor crosses level, in the plane both desktops are placed in |
| Edges.LandingsAreInside | crates/ud-core/src/layout.rs:12-18 | both landings are twelve pixels inside their edge |
| Edges.EdgeIsHitIff | crates/ud-core/src/layout.rs:132-142 | an edge is hit from beyond it and from within the tolerance, along its length and the tolerance more |
| Edges.OutwardIffFurtherBeyond | crates/ud-core/src/layout.rs:144-153 | a movement is outward exactly if it takes a point further beyond the side |
| Edges.BoxTouchesTheSide | crates/ud-core/src/layout.rs:48-75 | the other desktop's box has its own size and touches the linked side from outside |
| Geometry.FoldDesktop | crates/ud-core/src/geom.rs:110-121 | the loop over displays computes the desktop bounds |
| Geometry.DesktopIsTheSmallestCover | crates/ud-core/src/geom.rs:110-121 | the bounds cover every display and lie within everything else that does |
| Identity.ExactlyOneComesFirst | crates/ud-core/src/identity.rs:8-12 | of two different ids exactly one comes first, so both machines break ties alike |
| Identity.BeforeMeans | crates/ud-core/src/identity.rs:8-12 | the order is that of the first difference, or of length where there is none |
| Codec.ChunkRoundTrip | crates/ud-core/src/protocol.rs:320-352 | a chunk decodes from its encoding over the full range of every field, whatever follows it, exactly when its length fits 32 bits |
| Codec.DecodedChunkReencodes | crates/ud-core/src/protocol.rs:334-352 | whatever decodes starts with the encoding of what it decodes to |
| Codec.EncodeChunk | crates/ud-core/src/protocol.rs:324-332 | appending field by field gives the chunk's bytes |
| Codec.ChunkLayout | crates/ud-core/src/protocol.rs:324-332 | every header byte of a chunk, lowest byte first, field by field |
| Codec.CutChunkIsRefused | crates/ud-core/src/protocol.rs:334-352 | a chunk cut short anywhere does not decode |
| Codec.FrameLayout | crates/ud-net/src/codec.rs:84-98 | a record starts with its length, lowest byte first |
| Codec.LongRecordIsRefused | crates/ud-net/src/codec.rs:100-112 | a length over the limit is refused before the body |
| Codec.WriteRecord | crates/ud-net/src/codec.rs:84-98 | refuses a record over the limit before anything is written, and otherwise appends a frame that reads back |
| Codec.FramingRoundTrip | crates/ud-net/src/codec.rs:84-112 | any list of records within the limit parses back from its concatenation |
| Codec.StreamPrefixHoldsWholeRecords | crates/ud-net/src/codec.rs:100-112 | a stream cut anywhere parses to exactly the records that arrived whole |
| Session.EncodeInner | crates/ud-net/src/codec.rs:47-68 | the buffer filled is the inner encoding, or a message is refused for its length |
| Session.RecordRoundTrip | crates/ud-net/src/codec.rs:47-82 | a sent item opens to itself under its nonce and to nothing under any other |
| Session.ChunkFits | crates/ud-engine/src/transfer.rs:15-16 | a chunk of the size files are read in fits a record with headers and tag |
| Session.MessagesAcceptedButNotSent | crates/ud-net/src/codec.rs:47-68 | exactly which messages pass the encoder's check and cannot be sealed |
| Session.SessionRefinement | crates/ud-net/src/session.rs:250-340 | for any arrivals, failures and cut: the reader delivers exactly the written items that arrived whole, in order, and within each queue nothing accepted is lost, repeated or reordered |
| Session.MisplacedRecordEndsTheSession | crates/ud-net/src/session.rs:250-296 | a record not where its nonce puts it is not delivered, nor anything behind it |
| Session.BoundedOvertaking | crates/ud-net/src/session.rs:308-317 | until an urgent item is written, at most one normal item is: the one already in hand |
| Session.AssumptionsCanBeMet | crates/ud-net/src/session.rs:300-326 | there are keys with everything that is assumed of them, so the results about sessions speak of something |
| Session.SessionWriter.WriterLoop | crates/ud-net/src/session.rs:298-340 | the loop computes `Run`, so what is proved of runs holds of it |
| Progress.EverythingAcceptedIsWritten | crates/ud-net/src/session.rs:308-340 | whatever happened before, a writer neither stopped nor cancelled, holding nothing that cannot be sealed, empties its hand and both queues: what each lane accepted is what was written in it |
| Progress.RoundsWriteTheLine | crates/ud-net/src/session.rs:308-340 | as many turns as there are items write them in the order of the biased select |
| Progress.QueueAcceptsIff | crates/ud-net/src/session.rs:46-73 | a queue accepts an item exactly if it has room and the writer is there |
| Progress.CancellingEndsIt | crates/ud-net/src/session.rs:310-317 | once cancelled, at most the item in hand is written, and the writer stops at its next turn |
| Progress.SendableIff | crates/ud-net/src/codec.rs:47-68 | exactly which items can be sealed; chunks of the read size always can |
| Session.ReaderLoop | crates/ud-net/src/session.rs:250-296 | the loop delivers what its stream decodes to |
| Paths.ComponentAcceptedIffSafe | crates/ud-engine/src/transfer.rs:46-76 | validation accepts exactly the safe names and returns them unchanged |
| Paths.ResolveRelative | crates/ud-engine/src/transfer.rs:78-108 | the loop over components computes the resolved path or the error |
| Paths.AcceptedPathsStayBelowTheRoot | crates/ud-engine/src/transfer.rs:78-108 | an accepted path lies strictly below the root and consists of safe names |
| Paths.OfferedPathsAreAcceptedIffNoColon | crates/ud-engine/src/transfer.rs:78-108 | what the sender offers resolves to the same names exactly if none has a colon |
| Paths.PickUniquePath | crates/ud-engine/src/transfer.rs:110-131 | the search loop picks the first free variant |
| Paths.UniquePathIsFreeIffRoom | crates/ud-engine/src/transfer.rs:110-131 | the path picked is in the same directory, and free exactly if some variant is |
| Paths.FewNamesLeaveRoom | crates/ud-engine/src/transfer.rs:110-131 | a directory with fewer than 9,999 names always has a free variant |
| Naming.PathIsAcceptedIff | crates/ud-engine/src/transfer.rs:78-108 | exactly which paths are accepted, and that they come to their pieces between slashes of either kind |
| Naming.DeviceNamesAreRefused | crates/ud-engine/src/transfer.rs:39-76 | Windows device names are refused in any case, with anything behind a dot |
| Naming.BackslashesSeparateToo | crates/ud-engine/src/transfer.rs:78-108 | names joined by backslashes resolve to the same path |
| Naming.ThePickedName | crates/ud-engine/src/transfer.rs:110-131 | the name itself if free, else the first free number from 2, else the name after all |
| Naming.NumberGoesBeforeTheExtension | crates/ud-engine/src/transfer.rs:116-126 | `base.ext` numbered is `base (n).ext` |
| Naming.NumberComesLast | crates/ud-engine/src/transfer.rs:116-126 | without an extension the number comes last |
| Naming.DecimalSpells | crates/ud-engine/src/transfer.rs:124-126 | numbers are spelt in digits without a leading zero |
| Tree.CollectEntries | crates/ud-engine/src/transfer.rs:141-218 | the recursive walk with its running index gives the tree in preorder, or refuses all of it for one unsafe name |
| Tree.Collector.Walk | crates/ud-engine/src/transfer.rs:150-212 | one step of the walk appends exactly what is at and below a path |
| Tree.OfferListsTheTree | crates/ud-engine/src/transfer.rs:141-218 | every entry is numbered by position and stands for the node its path leads to, with its name, size and content, no path comes twice, and a directory comes before its contents |
| Tree.TheTreeIsInTheEntries | crates/ud-engine/src/transfer.rs:141-218 | everything in the tree but symbolic links has an entry |
| Tree.DirectoriesPrecedeTheirContents | crates/ud-engine/src/transfer.rs:141-218 | the directory an entry is in comes before it |
| Transfer.SendFiles | crates/ud-engine/src/engine.rs:2472-2538 | whatever the reads return, the chunks carry the files in order, without gaps, at most `CHUNK_BYTES` each; a broken stream is a part of that |
| Transfer.WriteChunkEffect | crates/ud-engine/src/engine.rs:2103-2193 | one chunk changes no file but the one its entry owns, and fails its own transfer at worst |
| Transfer.ExistingFileIsChosenIffNoRoom | crates/ud-engine/src/engine.rs:2126-2148 | with overwriting off, an entry that needs a path is given one where a file exists exactly if no variant of its name is free |
| Transfer.OverwritingKeepsTheName | crates/ud-engine/src/engine.rs:2126-2131 | with overwriting on, an entry that needs a path is given the one it asks for |
| Lifecycle.StateAfter | crates/ud-engine/src/engine.rs:1936-2232 | the state of a transfer after each event, in full: what begins, accepts, fails, ends, cancels and clears it |
| Lifecycle.ActiveMeansAccepted | crates/ud-engine/src/engine.rs:1983-1990 | over every run, a transfer becomes active only by being accepted while pending |
| Lifecycle.ChunkAddsItsLength | crates/ud-engine/src/engine.rs:2176-2183 | a chunk that is written adds its length to its file and to the whole |
| Lifecycle.ReportIsTaken | crates/ud-engine/src/engine.rs:1040-1051 | a report sets its file's number, and the whole follows |
| Lifecycle.OfferStartsWithNothing | crates/ud-engine/src/transfer.rs:304-330 | an offer promises the sum of its sizes and starts with nothing done |
| Lifecycle.WrittenByteForByte | crates/ud-engine/src/engine.rs:2168-2175 | every byte a write leaves: the data, what was there, and zeros in a gap |
| Disks.TheDiskStaysATree | crates/ud-engine/src/engine.rs:2103-2193 | over any run, with or without overwriting and whatever is refused: everything lies in a directory, nothing is both a file and a directory, and nothing is taken away |
| Receiving.FileReceiver.AcceptTransfer | crates/ud-engine/src/engine.rs:1983-2028 | the handler's loop makes the offered directories in order, whichever of them the file system refuses, and activates the transfer |
| Receiving.FileReceiver.Handle | crates/ud-engine/src/engine.rs:1936-2232 | every event of a transfer is handled in place by the step `Step` takes, errors included |
| Delivery.DestinationSeparation | crates/ud-engine/src/transfer.rs:110-131 | with overwriting off and room for names, over any events of any transfers: files that were there stay as they were, and no two entries are written to one place |
| Room.FewEnoughIsAlwaysEnough | crates/ud-engine/src/transfer.rs:110-131 | if in every directory the names there are, the entries still without a path and those to be offered come to fewer than 9,999, a free name is at hand throughout the run |
| Room.FewNamesKeepDestinationsApart | crates/ud-engine/src/engine.rs:2126-2148 | destination separation under that condition, which can be checked before anything is received |
| Delivery.OnlyTheOwnerWrites | crates/ud-engine/src/engine.rs:2126-2148 | a file changes only by a chunk for the entry it was created for |
| Delivery.FilesArriveAsSent | crates/ud-engine/src/engine.rs:2103-2193 | for any cut into chunks and any interleaving with other transfers, every non-empty file of an active transfer ends up on disk byte for byte |
| Delivery.StreamLands | crates/ud-engine/src/engine.rs:2472-2538 | at every point of the stream, exactly what has come of each file is on disk |
| Delivery.RunKeepsAccounts | crates/ud-engine/src/engine.rs:2176-2183 | over any mixture of chunks and reports, the total is the sum over the files |
| Delivery.ReportIsCounted | crates/ud-engine/src/engine.rs:1040-1051 | a progress report moves the total by what it changes |
| Journey.QueuedChunksArrive | crates/ud-net/src/session.rs:68-73 | the chunks the reader delivers are the first of those queued, in order, whatever messages overtook them; all of them if everything was written and arrived |
| Journey.FilesSurviveTheWire | crates/ud-engine/src/engine.rs:2472-2538 | end to end: if a transfer's queued chunks are the stream of its files, and the receiver handles what its reader delivers, every non-empty file is on disk byte for byte |
| Journey.QueuedFilesArrive | crates/ud-net/src/session.rs:298-340 | the same with nothing assumed of the writer's queues: from what was queued, as long as the connection is not closed |
| Placing.StreamIsPlaced | crates/ud-engine/src/engine.rs:2103-2193 | chunk by chunk, each file grows at the place its entry resolves to, over what was there, what has come of it is counted, and nothing else on the disk changes |
| Rebuild.TreeArrives | crates/ud-engine/src/engine.rs:2126-2175 | a tree received onto what is there, with overwriting on or where its files are free: every file lies over the old one, of which a longer end stays; everything else is as it was |
| Rebuild.OverwrittenIsReplacedIff | crates/ud-engine/src/engine.rs:2153-2157 | a file is replaced exactly if the old one was no longer |
| Rebuild.TreeRoundTrip | crates/ud-engine/src/transfer.rs:141-218 | a tree flattened, offered, accepted into an empty directory and streamed is there again, minus symbolic links and empty files; everywhere else the disk is as it was |
| Rebuild.AcceptingMakesTheDirectories | crates/ud-engine/src/engine.rs:1983-2028 | accepting makes exactly the directories of the tree, each after the one it is in |
| Rebuild.OfferedPathsResolve | crates/ud-engine/src/transfer.rs:78-108 | the receiver resolves every offered path to the same names below its root |
| Trust.PinnedKeysStay | crates/ud-engine/src/engine.rs:859-877 | a stored key stays the same over every run in which its machine is not forgotten |
| Trust.RunKeepsAgreement | crates/ud-engine/src/engine.rs:849-963 | in every reachable state a machine with a session and a record has one key in both |
| Trust.StoredKeyAfter | crates/ud-engine/src/engine.rs:1256-1268 | what one event does to a stored key: forgetting alone removes it, pairing alone adds it, nothing changes it |
| Trust.NothingIsReplaced | crates/ud-core/src/config.rs:249-267 | storing a paired machine never reports a replaced key |
| Trust.TrustStaysBacked | crates/ud-engine/src/engine.rs:1150-1160 | a trusted session has the key that is stored, until its machine is forgotten |
| Pairing.TrustInOneStep | crates/ud-engine/src/engine.rs:1124-1218 | a machine is trusted after an event exactly if it pairs, or comes back under its stored key, or was trusted and neither goes nor is replaced by a stranger |
| Pairing.TrustOverRuns | crates/ud-engine/src/engine.rs:849-963 | the same over every run |
| Pairing.StrangersHaveToPair | crates/ud-engine/src/engine.rs:1124-1218 | a machine neither stored nor trusted becomes trusted only in a run in which its code was typed here or it accepted |
| Pairing.CodesAreCounted | crates/ud-engine/src/engine.rs:1124-1198 | over runs in which nothing but codes concerns a session showing a code, it becomes trusted exactly if the code is typed within the attempts left, and is gone exactly if they are used up without |
| Pairing.AcceptanceNeedsNoCode | crates/ud-engine/src/engine.rs:1200-1218 | an accepting `PairResult` makes the session trusted and stores its key while a code is shown and none typed |
| Pairing.HandoffShowsACodeIff | crates/ud-engine/src/engine.rs:1084-1122 | a handoff draws a code, with no attempt counted, exactly for an untrusted session that does not wait for the other's, whether it shows one or not |
| Pairing.AnnouncedCodeIsAwaited | crates/ud-engine/src/engine.rs:1018-1031 | once the other machine announced its code none is shown here, by a handoff neither |
| Pairing.ConnectionShowsACodeIff | crates/ud-engine/src/engine.rs:945-963 | a connection shows a code at once exactly with a stranger, on the machine whose id comes second |
| Pairing.AtFirstOneShowsTheCode | crates/ud-engine/src/engine.rs:945-963 | of two strangers one shows a code at first and the other does not |
| Pairing.PairingWorksBothWays | crates/ud-engine/src/engine.rs:1150-1218 | a code typed and its answer leave each machine with the other on record, trusted and connected, under the key it proved to hold |
| Pairing.ConnectedStayTrusted | crates/ud-engine/src/engine.rs:849-1230 | over every run a connected session is trusted |
| Pairing.OnlyDigitsCount | crates/ud-engine/src/engine.rs:2572-2574 | of a code only the digits count, in their order |
| Pairing.CountingStartsAgain | crates/ud-engine/src/engine.rs:900-963 | a new connection with a stranger draws a new code with no attempt counted |
| Dialling.SessionSurvivesIff | crates/ud-engine/src/engine.rs:880-938 | when the last connection with a machine has come up and every late end is reported, there is a session exactly if no end was outstanding and that connection replaced none |
| Dialling.KeptIffFirst | crates/ud-engine/src/engine.rs:965-975 | of two connections dialled at once the one to keep is kept exactly if it came up first; otherwise no session is left |
| Dialling.BothKeepTheSameIff | crates/ud-engine/src/engine.rs:880-890 | two machines that dial each other both end with a session exactly if that connection came up first at both, and it is then the same one |
| Dialling.KeptConnectionIsLost | crates/ud-engine/src/engine.rs:185-188 | a run in which the connection to keep comes up second and is lost |
| Dialling.PreferredHoldsItsPlace | crates/ud-engine/src/engine.rs:880-890 | as long as connections only come up, the one to keep holds its place |
| Trust.TrustKeeper.Handle | crates/ud-engine/src/engine.rs:849-1268 | every event of sessions and pairing is handled in place by the step `Step` takes |
| Trust.PeerStore.Get | crates/ud-core/src/config.rs:235-237 | finds the record whose key counts for a device |
| Trust.PeerStore.Upsert | crates/ud-core/src/config.rs:249-267 | replaces the record under an id or appends one, and says what became of the key |
| Trust.PeerStore.Remove | crates/ud-core/src/config.rs:269-273 | drops every record under an id, and says whether there was one |
| Trust.UpsertSetsOneKey | crates/ud-core/src/config.rs:249-267 | storing is seen under its own id and no other |
| Trust.RemovalForgetsOneKey | crates/ud-core/src/config.rs:269-273 | removing is seen under its own id and no other |
| Clipboard.NothingIsRelayedUncopied | crates/ud-clipboard/src/lib.rs:143-184 | over any mixture of polls, applied payloads, limit changes and copies, no more is relayed than was copied, as long as applied payloads are canonical |
| Clipboard.NoEcho | crates/ud-clipboard/src/lib.rs:143-184 | the same from any state, counting what is waiting to be relayed |
| Clipboard.AppliedIsEchoedIff | crates/ud-clipboard/src/lib.rs:227-252 | exactly which applied payloads are followed by a report |
| Clipboard.SnapshotsAreCanonical | crates/ud-clipboard/src/lib.rs:191-225 | what another machine relays is canonical here, given a lossless picture codec |
| Clipboard.AssumptionsCanBeMet | crates/ud-clipboard/src/lib.rs:254-281 | there is a hash without collisions together with a lossless picture codec |
| Clipboard.FileListsRelayOldText | crates/ud-clipboard/src/lib.rs:246-250 | a run in which nothing is copied and text is relayed |
| Clipboard.DigestsStandForContents | crates/ud-clipboard/src/lib.rs:254-281 | comparing digests relays what comparing whole payloads would, over every run |
| Clipboard.DigestsDiffer | crates/ud-clipboard/src/lib.rs:254-281 | a payload that can be on the clipboard shares its hashed bytes with no other |
| Copying.CopyReachesTheOther | crates/ud-clipboard/src/lib.rs:143-252 | something new that is copied is relayed by the next poll, is on the other machine's clipboard once applied there, and no poll there relays it back |
| Copying.AppliedIsThere | crates/ud-clipboard/src/lib.rs:227-252 | an applied text, picture or clearing is what the clipboard then holds; what cannot be written leaves it alone and is an error |
| Copying.RelayedReadsBack | crates/ud-clipboard/src/lib.rs:191-252 | what one machine relays reads back on the other as it was, if its limits admit it, and as nothing if not |
| Copying.RelaysTextFirst | crates/ud-clipboard/src/lib.rs:191-225 | exactly what is relayed of a clipboard |
| Copying.CopyIsRelayed | crates/ud-clipboard/src/lib.rs:168-184 | a poll that is due relays what is new, and sets the next one |
| Clipboard.ClipboardWorker.Work | crates/ud-clipboard/src/lib.rs:120-185 | the worker's loop computes `Run` |

## Left out

- Floating point: coordinates are exact reals, and the guards against degenerate spans use a positive constant.
- Input hooks, event taps and key tables; the desktop app, tray and views; notices and logging; settings files.
- Discovery, dialling, the handshake, key generation and the timeouts of housekeeping. Sessions appear established.
- What one machine's closing of a connection does to the other machine's end of it: `Dialling` treats the tables of the two machines separately, a lost connection being one more event.
- Nonces beyond 64 bits: they wrap in the program and in the model, and no session is that long.
- Handovers among three machines, and sessions that begin or end during the two-machine runs of `Pair`.
- The normal queue as the way out of a full urgent one for control messages: `Pair` and `Visit` assume control messages stay in order.
- The bookkeeping of outgoing transfers, transfer speeds, and the notice that a transfer is done.
- Which entry of a directory the walk visits first: the children of a `Dir` are in the order visited. Paths the walk cannot read end it in the program and do not occur in the model.
- Buffered writes reaching the disk later than the handler returns, and opening with truncation, which the program does not do either: with overwriting on, the tail of a longer file stays.
- Terminal transfer states are not final in the program: a cancelled transfer can still be completed. Nothing is claimed about them.
- Directories made in part: a directory is made with everything above it, or not at all.
- Transfer.OnChunk: returns without effect when the per-entry lists differ in length, a state no event leads to.
- Handover.NoStuckKeys: counts on injected releases of mapped keys to succeed, as they do unless the platform refuses.
- The width of key codes and attempt counters: both are unbounded here and never reach their limits.
- Clipboard formats for lists of files, retrying while another process holds the clipboard, and what the system does to text it is given. `Clear` and `Shutdown` are commands like any other.
