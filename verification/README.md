# Manic emulator changes: a verified model

This project models five components of the repository and proves what they promise, for every input,
every answer of the environment and every interleaving of threads.

* **Memory maps** (`Bits`, `AddressMask`, `MemoryMap`, `MemoryMapTheorems`, `MemoryMapWords`, `VmaMap`). A libretro
  core describes its memory by descriptors; the frontend normalises them in place and later turns guest addresses into
  buffer indices with two mask loops. Words are numbers below `2^w` for `w` 32 or 64, and every wrap-around is written
  out, so the main theorem needs no hypothesis on overflow. Where the buffer's length is not a power of two the
  guarantee can fail; it holds exactly under a condition on the words of the descriptor before it is normalised. What
  the frontend fills in, a length, a select word and the top address, is stated by what it must cover. The descriptors
  the 3DS core emits are all accepted, map every address of an area to its own byte, select exactly the aligned block
  around their area, and for every area that does not fill its block the first address after it indexes one past the
  end.
* **Room session** (`RoomProtocol`, `RoomInvariant`, `RoomTheorems`, `RoomWaits`, `RoomReturn`, `RoomStop`,
  `RoomLost`, `RoomLeaving`, `RoomShown`, `RoomGame`, `RoomPromises`, `RoomWitness`, `RoomAddress`). The callers of
  the C functions, the worker, the network thread and the emulation thread are one transition system whose steps are
  single accesses to shared state. An inductive invariant gives safety in all reachable states, and every wait ends in
  a thread that can move. The interface header (`room_api.h:20`) says that state 4 (leaving) lasts until the cleanup
  completes. It is never withdrawn before: in every run it stays until the worker publishes that everything is
  released. But the code can also write it after the cleanup; the model follows the code, shows a run that ends so,
  and proves that it happens exactly when the last change of the shown state is from idle or offline to leaving. The
  member's leave need not return: once it has stored idle its wait is bounded exactly if no other state can be stored
  after it, and the state of the network thread tells which it is. Every answer of the host and every failure of a run
  is shown, joined is shown only after the host's answer, and a run whose member fell idle ends. The functions that
  stop a game's session wait for the worker, which has a bounded number of steps left; they return exactly when that
  leave does.
* **Export trie** (`Bytes`, `Uleb`, `ExportTrie`, `ExportTrieEncoding`). A relation says which bytes represent which
  tree at which offset; the recursive, offset-jumping decoder succeeds exactly on the bytes that represent a tree,
  with exactly its terminals. Every trie that an encoder lays out is decoded back.
* **Update importer** (`CiaPolicy`, `CiaContents`, `CiaManifest`, `CiaDevice`, `CiaVerdict`, `CiaInstall`). The device
  is a file system, a user path, a setting and a count of publishing renames; every call and every cancel poll answers
  as it likes. Success is the one rename; anything else leaves only directories on the way to the title. Which files
  are updates is stated on their bytes, and the status of every installation is the first refusal it met or else what
  the request, the file and the place decide.
* **Remaps and binds** (`Options`, `Decimal`, `RemapKeys`, `Remap`, `Keybind`, `BindTable`, `BindFile`). Values are
  saved as differences from defaults under generated names. No two entries share a name, and which settings survive
  saving and loading is stated exactly. The same holds of the table of binds: over all users, rows and kinds no two
  names are equal, so that whole tables saved to a file come back bind by bind.

Each component is in the form of its source: loops over arrays and fields of objects are methods proved against
specification functions, and what the source promises is proved about those functions. Bytes and hash states are
sequences, and SHA-256 is an arbitrary function of the bytes it was fed. Nothing here was executed.

## Model

| member | source | states |
|---|---|---|
| AddressMask.ReduceInflate | changes/Libretro/runloop.c:1046-1070 | deleting the mask positions undoes inserting them, for every mask and address |
| AddressMask.InflateReduce | changes/Libretro/runloop.c:1046-1070 | inserting after deleting clears exactly the masked bits |
| AddressMask.InflateAvoidsMask | changes/Libretro/runloop.c:1046-1058 | an inflated address has no bit in the mask |
| AddressMask.InflateOrders | changes/Libretro/runloop.c:1046-1058 | spreading keeps the order of addresses, so that with its range it is the only such map |
| AddressMask.ReduceTruncatedInflate | changes/Libretro/runloop.c:1046-1070 | in a word of width w, inflating and reducing keeps the address modulo 2^(w - popcount) |
| AddressMask.RoundTripExactlyWhenItFits | changes/Libretro/runloop.c:1046-1070 | inflating into a word loses nothing if and only if the address is below 2^(w - popcount of the mask) |
| AddressMask.MmapInflate | changes/Libretro/runloop.c:1046-1058 | the loop, which walks the mask from the low end with the mask fixed in place, inserts the zero bits in a word of width w |
| AddressMask.MmapReduce | changes/Libretro/runloop.c:1060-1070 | the loop, which shifts the mask down as it goes, deletes the masked bits |
| AddressMask.ReduceKeepsFillOrder | changes/Libretro/runloop.c:1060-1070 | deleting bits keeps the order of highest bits of unmasked addresses |
| AddressMask.MaskAboveIsHarmless | changes/Libretro/runloop.c:1120-1132 | masking a bit above everything an inflated word reaches does not change the inflated word |
| MemoryMap.MmapAddBitsDown | changes/Libretro/runloop.c:1030-1044 | the shift cascade fills every bit below the highest one, for both word widths |
| MemoryMap.MmapHighestBit | changes/Libretro/runloop.c:1073-1077 | the xor of the filled word with its half is the largest power of two not above the word |
| Bits.XorIsolatesTop | changes/Libretro/runloop.c:1073-1077 | filling and xoring isolates the highest bit of any number |
| Bits.FillIsLeastMask | changes/Libretro/runloop.c:1030-1044 | a filled word is one below a power of two and stays in its width |
| Bits.BitsOfXor | changes/Libretro/runloop.c:1073-1077 | the xor the top bit is isolated with acts on every bit by itself |
| Bits.BitsOfNot | changes/azahar-experimental/src/citra_libretro/citra_libretro.cpp:404 | the complement the select mask is built with flips exactly the bits of its word |
| Bits.BitsOfShr | changes/Libretro/runloop.c:1030-1044 | the shifts of the cascade move every bit down by their distance |
| MemoryMap.ConnectedShrinks | changes/Libretro/runloop.c:1126-1132 | disconnecting the highest connected bit removes exactly that bit, so the loop terminates |
| MemoryMap.GrowStops | changes/Libretro/runloop.c:1126-1132 | when the loop ends no connected bit is above the highest reachable bit |
| MemoryMap.GrowKeepsReachable | changes/Libretro/runloop.c:1120-1132 | growing the disconnect mask never changes the highest reachable address, so computing it once is right |
| MemoryMap.CollectTopAddr | changes/Libretro/runloop.c:1087-1095 | the first loop computes the all-ones word over every address a descriptor mentions |
| MemoryMap.DisconnectHighBits | changes/Libretro/runloop.c:1126-1132 | the inner loop computes the grown mask from any start |
| MemoryMap.NormaliseAt | changes/Libretro/runloop.c:1097-1133 | one descriptor is accepted exactly under the stated conditions, and becomes its normal form or its refused form; the others stay |
| MemoryMap.MmapPreprocessDescriptors | changes/Libretro/runloop.c:1079-1136 | it succeeds exactly if every descriptor is acceptable; then all are normalised in place, else those before the refused one |
| MemoryMapTheorems.IndexBounded | changes/Libretro/runloop.c:1079-1136 | no address up to the top one indexes beyond the filled last index of the buffer |
| MemoryMapTheorems.EveryAddressInBuffer | changes/Libretro/runloop.c:1079-1136 | after success every selected address of every descriptor lands in the buffer when its length is a power of two, without any overflow hypothesis |
| MemoryMapTheorems.GrownReduction | changes/Libretro/runloop.c:1126-1132 | the unselected bits left by the grown mask are those the caller's mask leaves below the highest reachable bit |
| MemoryMapTheorems.InsideExactlyWhenBufferHolds | changes/Libretro/runloop.c:1079-1136 | for any length, all selected addresses stay in the buffer if and only if the unselected bits below the reachable ones, reduced by the caller's own mask, are below the length |
| MemoryMapTheorems.HoldsWithoutDisconnect | changes/Libretro/runloop.c:1112-1132 | without a disconnect mask that condition is the unselected bits below the filled last index being below the length |
| MemoryMapTheorems.ThreeByteBufferIsOverrun | changes/Libretro/runloop.c:1079-1136 | a length that is not a power of two is accepted and can be indexed one past its end |
| MemoryMapWords.TopAddrIsLeast | changes/Libretro/runloop.c:1082-1095 | the top address is the least all-ones word, 1 at least, that covers every select word and the last address of every descriptor without one |
| MemoryMapWords.FilledSelectFreesIndices | changes/Libretro/runloop.c:1099-1110 | a select word that is filled in leaves free exactly the addresses that avoid the disconnect mask and, squeezed through it, are below the length |
| MemoryMapWords.FilledLengthIsLeast | changes/Libretro/runloop.c:1112-1115 | a length that is filled in is a power of two (0 for that of the whole word) above every selected index, and above 1 some selected address indexes in its upper half |
| MemoryMapWords.AcceptedExactly | changes/Libretro/runloop.c:1099-1118 | a descriptor is refused exactly for a length that is no power of two where there is no select word, or for a start with bits outside its new select word |
| VmaMap.NextPowerOfTwo | changes/azahar-experimental/src/citra_libretro/citra_libretro.cpp:396-398 | the doubling loop finds the least power of two not below the size |
| VmaMap.FlagsFor | changes/azahar-experimental/src/citra_libretro/citra_libretro.cpp:367-381 | areas that begin in a heap are shown as system memory, those in the video memory alone as video memory, all others not at all |
| VmaMap.DescribeArea | changes/azahar-experimental/src/citra_libretro/citra_libretro.cpp:361-408 | the body of the loop skips an area exactly if it is not emitted, and otherwise fills in its descriptor |
| VmaMap.SetupMemoryMaps | changes/azahar-experimental/src/citra_libretro/citra_libretro.cpp:354-414 | exactly the exposed areas aligned to the power of two around their size become descriptors, in order |
| VmaMap.BlocksMapExactly | changes/azahar-experimental/src/citra_libretro/citra_libretro.cpp:383-407 | after normalisation an area's descriptor selects each address of its aligned block, the area included, and maps it to address minus base |
| VmaMap.SelectsExactlyItsBlock | changes/azahar-experimental/src/citra_libretro/citra_libretro.cpp:390-405 | up to the top address, an emitted descriptor selects an address if and only if it lies in its block |
| VmaMap.SelectedAloneExactly | changes/azahar-experimental/src/citra_libretro/citra_libretro.cpp:361-408 | an area's address is selected by its own descriptor alone if and only if it lies in no other emitted area's block |
| VmaMap.PaddedAreaIsOverrun | changes/azahar-experimental/src/citra_libretro/citra_libretro.cpp:395-404 | for every emitted area whose size is no power of two, base plus size is selected and indexes exactly the length |
| VmaMap.EmittedHoldsExactly | changes/azahar-experimental/src/citra_libretro/citra_libretro.cpp:390-405 | an emitted descriptor holds every index if and only if the size of its area is a power of two |
| VmaMap.AllEmittedAccepted | changes/azahar-experimental/src/citra_libretro/citra_libretro.cpp:354-414 | the frontend accepts every descriptor the core emits, for any list of areas |
| VmaMap.PublishAreas | changes/Libretro/runloop.c:2993-3019 | copying and normalising the emitted descriptors leaves every address of every emitted area reachable at its own byte |
| RoomAddress.Bounded | changes/azahar-experimental/src/citra_libretro/room_session.cpp:29-36 | the copy succeeds exactly if the string ends within the limit, and is that string |
| RoomAddress.ScanOctet | changes/azahar-experimental/src/citra_libretro/room_session.cpp:40-46 | the digit loop accepts exactly the longest digit run that is a decimal octet |
| RoomAddress.IPv4 | changes/azahar-experimental/src/citra_libretro/room_session.cpp:37-50 | the scanner accepts exactly the IPv4address grammar of RFC 3986 section 3.2.2 without the two reserved addresses |
| RoomAddress.ReadingUnique | changes/azahar-experimental/src/citra_libretro/room_session.cpp:37-50 | an address has only one reading as four octets |
| RoomAddress.PrintedExactly | changes/azahar-experimental/src/citra_libretro/room_session.cpp:37-50 | the grammar is exactly the set of printed octet quadruples |
| RoomAddress.PrintInjective | changes/azahar-experimental/src/citra_libretro/room_session.cpp:37-50 | different quadruples are printed differently |
| RoomAddress.NameCharsListed | changes/azahar-experimental/src/citra_libretro/room_session.cpp:195-197 | the characters that are searched one by one are those the interface allows in a nickname |
| RoomAddress.CheckArguments | changes/azahar-experimental/src/citra_libretro/room_session.cpp:193-197 | a join is refused as invalid exactly if address, port, nickname or password is not what the interface promises to accept |
| RoomTheorems.StepKeepsInv | changes/azahar-experimental/src/citra_libretro/room_session.cpp:55-228 | every step of every thread keeps the invariant on locks, threads, transport, member, state, snapshot, flags and queue |
| RoomTheorems.ReachableInv | changes/azahar-experimental/src/citra_libretro/room_session.cpp:55-228 | the invariant holds after every run |
| RoomTheorems.NeverFaults | changes/azahar-experimental/src/network/room_member.cpp:160-274 | no run replaces a joinable thread, uses a null client, server or member, or destroys a connected member |
| RoomTheorems.IdleMeansReleased | changes/azahar-experimental/src/citra_libretro/room_session.cpp:79-86 | a snapshot showing idle or offline means no network thread and no transport |
| RoomTheorems.FinishedMeansQuiet | changes/azahar-experimental/src/citra_libretro/room_session.cpp:81-86 | with no caller inside, finished means an empty member list and neither joining nor joined |
| RoomTheorems.LoopOnlyWithinRun | changes/azahar-experimental/src/network/room_member.cpp:273-275 | a network thread exists only within a run that has not finished, with its client, and with its server until it closes |
| RoomTheorems.LeaveReturnsClean | changes/azahar-experimental/src/network/room_member.cpp:715-729 | each return from the member's leave finds it idle, without thread, client, server or queued packets |
| RoomTheorems.PacketsInOrder | changes/azahar-experimental/src/network/room_member.cpp:258-280 | what the peer was given since the last clear is a prefix of what was queued, and the rest is still waiting in order |
| RoomTheorems.NothingReappearsAfterLeave | changes/azahar-experimental/src/citra_libretro/room_session.cpp:104-111 | once a leave returned, nothing shows joining or joined again until a later join passes its checks |
| RoomShown.JoinedIsShown | changes/azahar-experimental/src/citra_libretro/room_session.cpp:104-110 | in every reachable state a member that joined, uncancelled and with its callback through, is shown as joined |
| RoomShown.MembersAreShown | changes/azahar-experimental/src/citra_libretro/room_session.cpp:117-128 | while the network thread listens, uncancelled and with its callback through, the first 254 members it knows are shown, each by 20 characters |
| RoomShown.ShownExactly | changes/azahar-experimental/src/citra_libretro/room_session.cpp:134-175 | between calls, offline is shown exactly without a ready game; idle or leaving without a run; joining, joined or a cancelled leaving during one |
| RoomShown.JoinStartsClean | changes/azahar-experimental/src/citra_libretro/room_session.cpp:203-210 | a join starts with joining, no error and no members on display |
| RoomShown.RequestIsQueued | changes/azahar-experimental/src/network/room_member.cpp:606-608 | while a run polls its connection, the request to join was handed over or waits for it |
| RoomGame.GameIsQueued | changes/azahar-experimental/src/network/room_member.cpp:609 | while a run polls a connection that is alive, the game was announced, or the announcement waits |
| RoomPromises.AnswersAreShown | changes/azahar-experimental/src/network/room_member.cpp:167-248 | after every answer of the host, in every run after which the network thread is through with it, the snapshot showed it (joined, members, or the error plus one), unless cancelled or left |
| RoomPromises.FailuresAreShown | changes/azahar-experimental/src/network/room_member.cpp:551-617 | every failure of a run, in every run up to its end, is shown under its number in the interface (1 to 13, 100, 101), unless cancelled |
| RoomPromises.JoinedOnlyWhenAnswered | changes/azahar-experimental/src/citra_libretro/room_api.h:17 | after any run, joined is shown only if the host has answered the join that last began |
| RoomLost.IdleDescends | changes/azahar-experimental/src/citra_libretro/room_session.cpp:62-72 | while the member is idle, every step of the worker after the join brings the end of the run nearer |
| RoomLost.LostRunEnds | changes/azahar-experimental/src/citra_libretro/room_session.cpp:62-86 | in every run during which the member stays idle, the worker makes at most the steps it had left |
| RoomWaits.EveryWaitEnds | changes/azahar-experimental/src/network/room_member.cpp:497-503 | from any unfinished thread at most two waits, for the owner of a mutex or for a thread to join, lead to a thread that can move |
| RoomWaits.SnapshotOwnerMoves | changes/azahar-experimental/src/citra_libretro/room_session.cpp:104-128 | the owner of the snapshot mutex, last in the lock order, never waits |
| RoomWaits.CallbackOwnerMoves | changes/azahar-experimental/src/network/room_member.cpp:497-503 | the owner of the callback mutex waits for the snapshot mutex at most |
| RoomWaits.NoDeadlock | changes/azahar-experimental/src/network/room_member.cpp:497-503 | in every reachable state with an unfinished thread one of the threads has an enabled step |
| RoomLeaving.LateExactlyAtRest | changes/azahar-experimental/src/citra_libretro/room_session.cpp:225-226 | when a leave writes, the cleanup is done if and only if the snapshot it holds shows idle or offline |
| RoomLeaving.LeavingOutlivesCleanupExactly | changes/azahar-experimental/src/citra_libretro/room_session.cpp:221-229 | a step makes leaving outlive the cleanup if and only if it is a leave's write over idle or offline |
| RoomLeaving.StaleExactlyAfterLateWrite | changes/azahar-experimental/src/citra_libretro/room_session.cpp:81-86 | after any run, leaving is shown with the cleanup done if and only if the last change of the shown state was from idle or offline to leaving |
| RoomLeaving.LeavingEndsWithCleanup | changes/azahar-experimental/src/citra_libretro/room_session.cpp:79-86 | while the worker still runs, a step takes leaving back if and only if it is the worker's publishing, after everything is released |
| RoomLeaving.LeavingLastsThroughCleanup | changes/azahar-experimental/src/citra_libretro/room_session.cpp:79-86 | in every run, leaving once shown with the worker running is shown in every state until the worker publishes |
| RoomReturn.NetworkDescends | changes/azahar-experimental/src/network/room_member.cpp:160-271 | while leave waits, every step of the network thread but a late store keeps the state idle and leaves it fewer steps |
| RoomReturn.NetworkEnds | changes/azahar-experimental/src/network/room_member.cpp:715-721 | in every run during which leave waits without a late store, the network thread makes at most the steps it had left and one for each packet pushed |
| RoomReturn.LeaveReturnsExactly | changes/azahar-experimental/src/network/room_member.cpp:715-721 | once leave has stored idle its wait is bounded if and only if no late store can follow, and that is so exactly if the network thread holds no other state and is not past its check of the state, before its event, with members known |
| RoomReturn.QuietLeaveProceeds | changes/azahar-experimental/src/network/room_member.cpp:715-721 | where no late store can come, the network thread has steps left that at most two others delay, or it has ended and the join is enabled |
| RoomReturn.LeaveCanWaitForever | changes/azahar-experimental/src/network/room_member.cpp:715-720 | from a state where leave waits for a connected network thread, a silent round of the network returns to that state |
| RoomReturn.OnlyLateStoreReconnects | changes/azahar-experimental/src/network/room_member.cpp:145-150 | in one step while leave waits, the state stops being idle if and only if the network thread carries out a pending store |
| RoomStop.CancelledDescends | changes/azahar-experimental/src/citra_libretro/room_session.cpp:55-86 | once cancelled, every step of the worker, polling and reconnecting included, leaves it fewer steps |
| RoomStop.StoppedWorkerEnds | changes/azahar-experimental/src/citra_libretro/room_session.cpp:55-58 | in every run during which a stopping function waits, the worker makes at most the steps it had left |
| RoomStop.StopReturnsExactly | changes/azahar-experimental/src/citra_libretro/room_session.cpp:147-175 | with the worker in the member's leave past its idle store, a stopping function waits for a bounded number of worker and network steps if and only if no late store can follow |
| RoomStop.StopProceeds | changes/azahar-experimental/src/citra_libretro/room_session.cpp:55-58 | at every point of the wait at most two waits lead to a thread that can move, and the join is enabled if and only if the worker has ended |
| RoomWitness.JoinedIsReachable | changes/azahar-experimental/src/citra_libretro/room_session.cpp:104-110 | a run ends with the room joined and its member on display |
| RoomWitness.StaleLeavingIsReachable | changes/azahar-experimental/src/citra_libretro/room_session.cpp:81-86 | a run ends with all threads done and everything released while the snapshot says leaving |
| RoomWitness.LeaveOvertakenIsReachable | changes/azahar-experimental/src/network/room_member.cpp:145-150 | a run leads to a leave that waits for a network thread whose late store overwrote idle |
| Uleb.ReadUleb | ci/macho_export_decoder.py:10-15 | the loop reads exactly the field the specification describes, with its two failures |
| Uleb.ReadExactly | ci/macho_export_decoder.py:10-15 | a field of at most ten bytes has exactly one reading |
| Uleb.EncodeRoundTrip | ci/macho_export_decoder.py:10-15 | a canonically encoded number (section 7.6 of DWARF 5) is read back, anywhere in the data, if and only if it is below 2^70 |
| ExportTrie.ReadCstrExactly | ci/macho_export_decoder.py:16-18 | a zero-terminated string is read exactly where one stands |
| ExportTrie.FlagBits | ci/macho_export_decoder.py:27-32 | the re-export flag is bit 3 and the resolver flag bit 4 |
| ExportTrie.TerminalExactly | ci/macho_export_decoder.py:25-33 | a terminal is read exactly if its bytes represent it and fill the declared size, and bits 3 and 4 of its flags tell what it holds |
| ExportTrie.OffsetsBounded | ci/macho_export_decoder.py:22-23 | the ancestors are no more than the bytes, which bounds the depth of the walk |
| ExportTrie.RepresentedOnce | ci/macho_export_decoder.py:22-37 | the bytes represent at most one tree at an offset |
| ExportTrie.RootNotBelow | ci/macho_export_decoder.py:23 | no represented tree contains its own root again, so the ancestor check refuses no trie |
| ExportTrie.WalkFinds | ci/macho_export_decoder.py:22-37 | the walk over a represented tree succeeds with the tree's terminals |
| ExportTrie.WalkRepresents | ci/macho_export_decoder.py:22-37 | every successful walk has a represented tree with those terminals |
| ExportTrie.SortSorts | ci/macho_export_decoder.py:39 | the result is sorted by name |
| ExportTrie.SortStable | ci/macho_export_decoder.py:39 | rows with equal names keep their order |
| ExportTrie.DecodesExactlyTries | ci/macho_export_decoder.py:19-39 | decoding yields given rows if and only if the bytes represent a trie at offset 0 whose sorted terminals they are |
| ExportTrieEncoding.EncodedTrieDecodes | ci/macho_export_decoder.py:19-39 | every trie of numbers below 2^70 that an encoder lays out in bytes is decoded to exactly its exports, sorted by name |
| ExportTrie.TrieDecoder.ReadTerminalRow | ci/macho_export_decoder.py:24-33 | the head of a node is read as specified and its row appended to the shared list |
| ExportTrie.TrieDecoder.WalkNode | ci/macho_export_decoder.py:22-37 | the recursive traversal appends exactly the rows of the walk, and terminates on all bytes |
| ExportTrie.TrieDecoder.ExportTrie | ci/macho_export_decoder.py:19-39 | the whole decoder returns the specified result |
| CiaPolicy.Integer | changes/azahar-experimental/src/citra_libretro/cia_update_policy.h:16-20 | the byte loop computes the number the bytes stand for in either byte order |
| CiaPolicy.MaskFormAligns | changes/azahar-experimental/src/citra_libretro/cia_update_policy.h:21 | the mask expression is the least multiple of 64 not below n |
| CiaPolicy.HeaderAcceptsExactly | changes/azahar-experimental/src/citra_libretro/cia_update_policy.h:54-67 | a header is accepted, with given sections, if and only if it is supported, bounded and places exactly those sections inside the file |
| CiaPolicy.SectionsInOrder | changes/azahar-experimental/src/citra_libretro/cia_update_policy.h:54-67 | accepted sections are ordered, disjoint, 64-aligned, padded by less than 64 bytes and inside a file of at most 8 GiB; no intermediate wraps |
| CiaPolicy.SignedBody | changes/azahar-experimental/src/citra_libretro/cia_update_policy.h:68-76 | exactly the six signature types are accepted, each pair with its own start of the body |
| CiaContents.Hash | changes/azahar-experimental/src/citra_libretro/cia_update.cpp:42-50 | hashing in chunks is hashing the whole range; it fails exactly when interrupted or out of the file |
| CiaContents.ReadManifest | changes/azahar-experimental/src/citra_libretro/cia_update.cpp:84-99 | every read of header, metadata and ticket is in bounds, and what is accepted lists at most 256 records of an update title |
| CiaManifest.ManifestAcceptsExactly | changes/azahar-experimental/src/citra_libretro/cia_update.cpp:84-99 | a file is accepted, with given lists, if and only if its header, the fields of its metadata and the title and content index of its ticket say so |
| CiaManifest.ManifestUnsupportedExactly | changes/azahar-experimental/src/citra_libretro/cia_update.cpp:84-92 | it is refused as unsupported if and only if the header says so, or the count or the category of the metadata does |
| CiaManifest.RecordExactly | changes/azahar-experimental/src/citra_libretro/cia_update.cpp:103-112 | a record is read from its place in the list if and only if the 48 bytes there are those of the record |
| CiaContents.CheckRecord | changes/azahar-experimental/src/citra_libretro/cia_update.cpp:103-112 | a record passes exactly if it is declared for its position, new, fits and hashes to its digest; nothing underflows |
| CiaContents.ScanContents | changes/azahar-experimental/src/citra_libretro/cia_update.cpp:100-113 | unless interrupted, the loop accepts exactly the files whose records are all good and fill the section; unsupported exactly when the first bad record is misdeclared |
| CiaContents.ContentsTile | changes/azahar-experimental/src/citra_libretro/cia_update.cpp:102-122 | accepted contents joined in order are the content section, and their sizes add up to the reported bytes |
| CiaContents.ByteBelongsToOne | changes/azahar-experimental/src/citra_libretro/cia_update.cpp:102-113 | every byte of the section belongs to exactly one content |
| CiaContents.IdentifiersDistinct | changes/azahar-experimental/src/citra_libretro/cia_update.cpp:108 | no two accepted contents share an identifier |
| CiaContents.MarkedReadsBit | changes/azahar-experimental/src/citra_libretro/cia_update.cpp:106 | the bitmap test reads the content's own bit, from the high end of each byte |
| CiaContents.PlainReadsBits | changes/azahar-experimental/src/citra_libretro/cia_update.cpp:107 | the type mask tests exactly bits 0, 14 and 15 |
| CiaDevice.NothingBelow | changes/azahar-experimental/src/citra_libretro/cia_update.cpp:131 | in a file tree nothing lies below a path that does not exist, so an absent destination is wholly absent |
| CiaDevice.MovedTree | changes/azahar-experimental/src/citra_libretro/cia_update.cpp:174-175 | a permitted rename leaves a file tree |
| CiaDevice.MovedRest | changes/azahar-experimental/src/citra_libretro/cia_update.cpp:174-175 | a permitted rename touches nothing but what it moves |
| CiaDevice.MovedLookup | changes/azahar-experimental/src/citra_libretro/cia_update.cpp:174-175 | what was below the source is found below the destination |
| CiaDevice.Device.CreateDirectories | changes/azahar-experimental/src/citra_libretro/cia_update.cpp:171 | success or not, only missing directories on the way are added |
| CiaDevice.Device.CreateFullPath | changes/azahar-experimental/src/common/file_util.cpp:346-385 | an existing path is enough and nothing changes; else only directories on the way are added, and success means the path is there |
| CiaDevice.Device.SetUserPath | changes/azahar-experimental/src/common/file_util.cpp:931-976 | an existing path becomes the user path and nothing else changes; otherwise directories may appear and any path may be chosen |
| CiaDevice.Device.RenameExclusive | changes/azahar-experimental/src/citra_libretro/cia_update.cpp:174-175 | it replaces nothing, and only its success counts as a commit |
| CiaVerdict.VerdictOutside | changes/azahar-experimental/src/citra_libretro/cia_update.cpp:125-131 | what is decided about the place of the title does not depend on the staging directory |
| CiaVerdict.FreeStaysBelow | changes/azahar-experimental/src/citra_libretro/cia_update_policy.h:30-37 | a relative path that passes the link check leads below its base, component by component |
| CiaInstall.DirectoryOf | changes/azahar-experimental/src/citra_libretro/cia_update_policy.h:25-29 | exactly the trailing empty components are stripped |
| CiaInstall.NoLinks | changes/azahar-experimental/src/citra_libretro/cia_update_policy.h:30-37 | it passes exactly if no component escapes the base and none on the way is a link |
| CiaInstall.FindRoot | changes/azahar-experimental/src/citra_libretro/cia_update_policy.h:38-44 | exactly the one expected root is accepted, and only free of links |
| CiaInstall.CopyInput | changes/azahar-experimental/src/citra_libretro/cia_update.cpp:74-83 | appending chunk by chunk, success leaves the input byte for byte in staging; success or not, nothing outside the staging directory changes |
| CiaInstall.Locate | changes/azahar-experimental/src/citra_libretro/cia_update.cpp:124-131 | the title has its place below the root: no link on the way and nothing there, or the status says which |
| CiaInstall.RunInstaller | changes/azahar-experimental/src/citra_libretro/cia_update.cpp:138-152 | nothing outside the staged user path changes |
| CiaInstall.VerifyInstalled | changes/azahar-experimental/src/citra_libretro/cia_update.cpp:155-160 | after success every installed content has the size of its record and hashes to its digest |
| CiaInstall.Stage | changes/azahar-experimental/src/citra_libretro/cia_update.cpp:132-164 | staging leaves everything outside the staging directory alone and ends with verified contents |
| CiaInstall.Publish | changes/azahar-experimental/src/citra_libretro/cia_update.cpp:165-176 | one rename and success go together; a failure adds at most the directories above the title |
| CiaInstall.RenamePublishes | changes/azahar-experimental/src/citra_libretro/cia_update.cpp:174-176 | after the rename the whole verified title is outside the staging directory, at a place that did not exist |
| CiaInstall.WithPaths | changes/azahar-experimental/src/citra_libretro/cia_update.cpp:32-41 | on every exit the user path is the root, which is still a directory, and the compression setting is what it was |
| CiaInstall.RootStays | changes/azahar-experimental/src/citra_libretro/cia_update.cpp:123-177 | whether the title was published or not, the root the destructor sets is still a directory |
| CiaInstall.WithTemporary | changes/azahar-experimental/src/citra_libretro/cia_update.cpp:28-31 | on every exit the staging directory is gone |
| CiaInstall.Install | changes/azahar-experimental/src/citra_libretro/cia_update.cpp:51-177 | success exactly with the rename, then the verified title is published; otherwise only directories above it are added; the status is the first refusal met or else the verdict on request, input and place |
| CiaInstall.InstallUpdate | changes/azahar-experimental/src/citra_libretro/cia_update.cpp:179-187 | for every pattern of failures and cancels: the status is the first refusal (cancelled exactly if that was a cancel) or else what request, input, space and place decide, so an update that nothing refuses is installed; success if and only if one rename happened, existing entries unchanged, staging gone, once `Paths` existed the user path is the root and the setting restored, report filled in only for an accepted input |
| Decimal.UnsignedOfDigits | changes/Libretro/configuration.c:6752 | reading a printed number with automatic base gives it back and stops at its end, zero included |
| RemapKeys.NamesDiffer | changes/Libretro/configuration.c:6229-6325 | no two entries of a remap file share a name: user, kind and input are all recoverable |
| RemapKeys.NamesFit | changes/Libretro/configuration.c:6190-6236 | every name fits the buffer it is built in, for every user |
| Remap.Config.Set | changes/Libretro/configuration.c:6262 | writing one entry changes no other |
| Remap.EntryRoundTrip | changes/Libretro/configuration.c:6239-6275 | a saved value comes back over the defaults if and only if it is not an unlabelled unmapped input nor the identifier that prints as -1 |
| Remap.OnlyDifferencesWritten | changes/Libretro/configuration.c:6249-6275 | an entry is written exactly for a value that differs from the default, except for an unmapped input without a label |
| Remap.DefaultNeedsNoEntry | changes/Libretro/configuration.c:6044-6102 | a default is exactly what loading makes of an entry that is not there |
| Remap.MustSave | changes/Libretro/configuration.c:6203-6223 | a port is saved exactly if it is below the number of users or one of them is mapped to it |
| Remap.SaveInput | changes/Libretro/configuration.c:6239-6275 | the two entries of an input are written or removed as its values demand: no entry exactly for an input mapped to itself, unmapped without a label, or without a key; no other entry changes |
| Remap.Save | changes/Libretro/configuration.c:6157-6349 | the file holds exactly the entries of the ports below the number of users and of those mapped to them, each under its own name, and of the inputs and keys only those that differ from the defaults |
| Remap.LoadEntry | changes/Libretro/configuration.c:6044-6102 | a present entry decides its setting, an absent one leaves it, except that a key becomes unknown |
| Remap.Load | changes/Libretro/configuration.c:5999-6147 | every setting becomes what its own entry says over the defaults |
| Remap.SaveAndLoad | changes/Libretro/configuration.c:5999-6349 | which settings come back after saving and loading, exactly: all of a saved port except unlabelled unmapped inputs and the identifier that prints as -1 |
| Keybind.ParseHatExactly | changes/Libretro/configuration.c:6682-6716 | a text is one direction exactly if it is that direction's name |
| Keybind.JoyKeyRoundTrip | changes/Libretro/configuration.c:6718-6761 | parsing undoes printing of a button if and only if a hat has one direction or the bind was there already |
| Keybind.ButtonTexts | changes/Libretro/configuration.c:6740-6760 | a number alone is a button; after an h and before the name of a direction it is a hat |
| Keybind.AxisTexts | changes/Libretro/configuration.c:6655-6665 | a plus sign is for the positive half of an axis, a minus sign for the negative one |
| Keybind.AxisRoundTrip | changes/Libretro/configuration.c:6630-6662 | parsing undoes printing of an axis if and only if at most one of its halves is in use |
| Keybind.SaveJoyKey | changes/Libretro/configuration.c:4874-4922 | exactly the bind's text is written, under the bind's name |
| Keybind.SaveAxis | changes/Libretro/configuration.c:4924-4952 | exactly the axis's text is written, under the bind's name |
| Keybind.SaveAndParse | changes/Libretro/configuration.c:4874-4952 | when a bind saved to a file and parsed into another comes back, exactly, with empty binds and old entries considered |
| Keybind.MouseRoundTrip | changes/Libretro/configuration.c:6563-6628 | a saved mouse button always comes back |
| BindTable.NamesDiffer | changes/Libretro/configuration.c:298-412 | over all users, all rows of the bind table and all four kinds, no two entries share a name |
| BindTable.NamesFit | changes/Libretro/configuration.c:5081-5097 | every name fits the 64 bytes of its buffer |
| BindFile.SaveProfile | changes/Libretro/configuration.c:5287-5300 | a device's profile gets the button and the axis of every valid bind below the hotkeys, each under its own name; nothing else changes |
| BindFile.ParseProfile | changes/Libretro/configuration.c:6535-6561 | every bind, hotkeys included, becomes what its own entries make of it |
| BindFile.SaveAndParseProfile | changes/Libretro/configuration.c:5287-5300 | after saving a profile and parsing it, every row that was saved comes back exactly under its own condition, and every other row is what the old profile says |
| BindFile.SaveBind | changes/Libretro/configuration.c:5099-5103 | the four entries of one bind are set to its texts, and no other entry changes |
| BindFile.SaveUser | changes/Libretro/configuration.c:5075-5106 | a user's valid binds are saved under the user's prefix, hotkeys under `input` alone and only for the first user |
| BindFile.SaveUsers | changes/Libretro/configuration.c:5544-5545 | the configuration holds the four texts of every valid bind of every user, and each comes back: key and mouse always, a button unless nameless, an axis unless both halves are in use |

## Left out

- The rest of `runloop.c`, `configuration.c` and `citra_libretro.cpp`: environment callbacks, hotkeys, menus, setting
  tables and file handling would add wide but easy members.
- `VmaMap`: guest bases and sizes are 32-bit numbers and the well-known regions are parameters, because the headers
  that define them are not part of this model. The `ptr`, `flags` and `offset` of descriptors do not influence the
  normalisation, and `offset` is not modelled. The frontend ignores the result of the normalisation; the theorems are
  about the descriptors of a successful one.
- ENet, packet serialisation, `Network::Init` and `Network::Shutdown` are arbitrary answers; packets are opaque.
- `RoomProtocol`: `api_mutex` is modelled by one caller at a time; readers of the snapshot, `username_mutex`, chat and
  moderation packets and the text of nicknames beyond truncation are left out. Exceptions are possible in `Join` where
  it allocates: the host, the thread and the two requests. A join success before any member information stops the
  network thread at its assertion, which is modelled as that event not being possible. The deadline of the connection
  is an arbitrary answer, so `Service` may poll for ever.
- RoomTheorems.LeaveReturnsClean: says what holds when the member's leave returns, not that it returns, because it
  need not (`RoomWitness.LeaveOvertakenIsReachable`); `RoomReturn.LeaveReturnsExactly` says when its wait is bounded.
- Host functions of the second interface version of the room: the text of the patches that add them is not part of
  this model.
- `ExportTrie`: the text decoding of labels is an arbitrary function, and Python's recursion limit is not modelled.
- `CiaContents`: reads fail only as a whole; the container parser and the content check of the emulator's installer
  are arbitrary answers, except that the content sizes the parser reports are those of the records it parsed.
- `CiaDevice`: other processes do not act on the file system during an installation, and an operation on a path
  through a link fails instead of following it, which the link checks before it make unobservable outside the staging
  directory. `remove_all` succeeds. Setting the user path does not throw; a throw in the destructor of `Paths` would
  skip the restoring of the setting. The paths the emulator derives from the user path are not modelled.
- `CiaInstall`: normalising a path lexically, canonical paths and the properties of the input file are facts given
  with the request. The emulator's path of a title is a parameter that does not start with the name of a staging
  directory.
- `CiaInstall`: the free space is a fact given with the request. What the emulator's installer writes is arbitrary,
  and contents that do not verify count as a refusal of the installer.
- `Remap`: numbers are entries, not text; `input_remapping_set_defaults` is modelled only as mapping every input to
  itself, which the comparison at `configuration.c:6250` presumes; the values of `RARCH_UNMAPPED`, `RETROK_UNKNOWN`
  and the number of users are those of headers that are not part of this model; rebuilding the port map, caching the
  path of the file and its early refusals are left out. The saved device is the setting, where the source asks the
  input driver for it.
- `Keybind`: the macros that pack hats and axes into words are replaced by a data type with their parts; labels and
  the cutting of texts to 63 characters are left out. The key of a bind is the name the keymap has for it, because the
  keymap is not part of this model, and neither is the loader of a user's binds; what comes back is what the parsers
  of `configuration.c` make of the entries.
- `BindTable`: the table is the one of a build with a menu, and a bind's index is its row. The entries of a profile
  that name the driver and the device are left out.
