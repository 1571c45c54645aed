# Foren6 analyser: verified model

This project models the stateful core of the Foren6 6LoWPAN/RPL analyser in Dafny and proves what its parts promise
each other.

- **Capture interfaces** (`Timevals`, `TimeForest`, `InterfaceSpec`, `InterfaceRuns`, `InterfaceTimes`,
  `InterfaceManager`, `RecentWindow`). The interfaces form a forest whose edges carry time offsets. The classes work on
  parent pointers: path compression, union by alignment, and the loop that reverses a path. They are proved against a flat
  table that gives each interface its root and its absolute offset. On the table stand the theorems over runs: offsets
  inside a tree are rigid, time bases count roots, a frame is forwarded exactly when no live interface has received its
  digest recently, and after a frame every clock is where its sightings put it. The window of recent packets is proved to
  be the last 100 distinct digests in recency order.
- **SHA-1** (`Sha1Spec`, `Sha1Example`, `Sha1Rounds`, `Words`, `Sha1`). The streaming digest with its carry buffer and the
  80 unrolled rounds on a 16-word ring are proved against FIPS 180-4, sections 4.1.1, 5.1.1 and 6.1.2, down to the bytes
  that 32-bit words leave in memory. A published example ties the definition to its digest.
- **Containers** (`OrderedMap`, `HashLinks`, `HashBuckets`, `HashTable`, `HashContainer`, `MergeSort`, `HashSort`,
  `UtList`). Elements are threaded on a list and on bucket chains, buckets double, and a merge sort runs on the links. The
  invariant is what HASH_FSCK checks. The containers refine maps that keep insertion order.
- **The duplicate filters** (`DuplicateFilter`, `SnifferParser`, and one filter in every interface) put the three above
  together: SHA-1 keys in a hash container acting as the recency window.
- **The network store** (`NetworkState`, `NetworkInvariant`, `NetworkCommit`, `CollectorSpec`, `CollectorMembers`,
  `CollectorEffects`, `CollectorRuns`, `Observations`, `DataResults`, `DaoResults`, `DioResults`, `Publishing`,
  `ObjectKeys`, `NetworkObjects`, `NetworkStore`, `Collector`, `Analyser`). A working set of nodes, links, DODAGs and RPL
  instances is changed by packets and published in snapshots that share unchanged objects. For every packet and every
  object, theorems state field by field what the object is afterwards, what is told of it, and when it is published. A
  node owns a linked list of routes, a DODAG and an instance own a hash container; setters edit them in place. The
  abstract snapshots are full copies. The classes are proved to refine them although snapshots share objects, and although
  packet counters are written into published objects, because copies are deep: the cells of any two objects are disjoint.
  `Analyser.PerformAll` concludes that no run of packets and requests changes what a published object shows.
- **Addresses, routes, ring buffer** (`Bits`, `Address`, `Routes`, `RouteLists`, `RingBuffer`).

Objects that the program updates in place are classes here, and their methods are tied to functions on values; the
theorems over runs are about those functions. A few facts that one may expect turn out to hold only under a condition,
which is then proved to be exact: destroying a handle keeps the parent graph closed if and only if it is a leaf
(`TimeForest.RemoveWfIff`; `TimeForest.RemoveCanBreak` is a graph where it does not), and the two-word byte count of SHA-1
is exact if and only if the added length is below 2^32 or the low word does not overflow twice (`Sha1.CarryIsExactIff`;
`Sha1.CarryCanBeLost` is a length where it is wrong).

Inputs from outside enter as parameters: packets, time stamps, the hash function of the containers (any fixed function
of the key), the comparison of a sort (any function of the two elements that does not change meanwhile), and, for the
collectors, whether a comparison of fields that the store does not track finds a difference, and the current global
addresses of nodes.

## Model

| member | source | states |
|---|---|---|
| Timevals.TimerAdd | src/interface_reader/interfaces_mgr.c:247-260 | `timeradd` on normal pairs gives the normal pair of the summed microseconds |
| Timevals.TimerSub | src/interface_reader/interfaces_mgr.c:262-272 | `timersub` on normal pairs, negative results included, gives the normal pair of the difference |
| Timevals.NormalIsCanonical | src/interface_reader/interfaces_mgr.c:247-260 | a normal pair is a number of seconds and less than 1,000,000 microseconds, and two normal pairs of the same instant are the same pair, so reasoning in microseconds loses nothing |
| TimeForest.AttachedMoves | src/interface_reader/interfaces_mgr.c:336-360 | setting one parent and delta moves exactly the nodes below it, by one common offset, under the root of the new parent |
| TimeForest.AttachedWf | src/interface_reader/interfaces_mgr.c:336-360 | it keeps the parent graph acyclic when the new parent is not below the node |
| TimeForest.CompressKeepsClocks | src/interface_reader/interfaces_mgr.c:294-313 | hanging a node directly under its root at the summed delta changes no root and no absolute time, of any node |
| TimeForest.TurnMoves | src/interface_reader/interfaces_mgr.c:361-382 | one step of the path reversal puts the subtree below the turned node where it has to end, and leaves the rest |
| TimeForest.TurnGoesOn | src/interface_reader/interfaces_mgr.c:361-382 | a step that is not the last leaves the next node of the old path ready to be turned, with the negated old delta |
| TimeForest.TurnEnds | src/interface_reader/interfaces_mgr.c:361-382 | the step that turns the old root completes the move of the whole tree |
| TimeForest.AttachRootIsShift | src/interface_reader/interfaces_mgr.c:336-360 | attaching a root shifts its tree by the gap that makes the two packets simultaneous, and no other tree |
| TimeForest.RemoveWfIff | src/interface_reader/interfaces_mgr.c:233-245 | removing a handle leaves the parent graph closed if and only if no handle has it as parent |
| TimeForest.RemoveCanBreak | src/interface_reader/interfaces_mgr.c:233-245 | and there is such a forest: a root with one child, whose removal leaves the child with a parent that is gone |
| TimeForest.AddRoot | src/interface_reader/interfaces_mgr.c:213-231 | a new handle is a tree of its own at offset 0 and moves nobody |
| InterfaceSpec.SyncAligns | src/interface_reader/interfaces_mgr.c:315-384 | after synchronising two interfaces on one packet they share a root and agree on the time of the packet when their roots differed; offsets inside every old tree stay; one root fewer |
| InterfaceSpec.SyncFirstAligns | src/interface_reader/interfaces_mgr.c:402-415 | after the loop over the handles the receiver and every handle that held the packet are in one tree |
| InterfaceSpec.ForwardedIff | src/interface_reader/interfaces_mgr.c:386-428 | a frame that is empty or whose first byte does not leave 1 by division by four changes nothing; any other goes to the parser if and only if its digest is in no live window on arrival, is remembered by its receiver, and afterwards all holders share the tree of the receiver |
| InterfaceSpec.DataFrameIff | src/interface_reader/interfaces_mgr.c:392-396 | the bit mask selects exactly the non-empty frames whose first byte leaves 1 by division by four |
| InterfaceSpec.StepKeepsInv | src/interface_reader/interfaces_mgr.c:213-245 | create, packet and leaf destroy keep: a closed forest, as many time bases as roots, an interface without a first packet is isolated with an empty window |
| InterfaceSpec.RunKeepsInv | src/interface_reader/interfaces_mgr.c:213-428 | the same over every run |
| InterfaceSpec.RunIsRigid | src/interface_reader/interfaces_mgr.c:315-428 | over every run, two interfaces that share a tree keep their relative time offset for ever |
| InterfaceSpec.RunWindow | src/interface_reader/interfaces_mgr.c:447-491 | over every run the window of an interface is the replay of the data frames that arrived at it |
| InterfaceRuns.RunState | src/interface_reader/interfaces_mgr.c:213-245 | over every run, which interfaces live, and what each live window holds, in terms of the operations of the run alone |
| InterfaceRuns.HeldIffRecalled | src/interface_reader/interfaces_mgr.c:430-445 | after every run some live window holds a digest if and only if some live interface received it in its present life with fewer than 100 other digests after it |
| InterfaceRuns.RunForwards | src/interface_reader/interfaces_mgr.c:386-428 | after every run a frame that is no data frame (empty, or first byte not 1 modulo 4) changes nothing, and a data frame is handed on, once and with its absolute time, if and only if no live interface has received its digest in its present life with fewer than 100 other digests after it |
| InterfaceTimes.JoinedIff | src/interface_reader/interfaces_mgr.c:402-415 | after the loop over the handles the tree of the receiver consists of exactly its own tree and the trees of the other holders, and no clock outside it has moved |
| InterfaceTimes.LeaderAligned | src/interface_reader/interfaces_mgr.c:402-445 | the frame then has one absolute time at the receiver and at the first holder of every other tree |
| InterfaceTimes.FrameJoins | src/interface_reader/interfaces_mgr.c:386-428 | the same for a whole frame, from where the receiver has its origin; if the receiver hangs below another interface, no clock of its tree moves |
| InterfaceTimes.FrameAligns | src/interface_reader/interfaces_mgr.c:386-428 | and so is the alignment |
| InterfaceTimes.FrameKeeps | src/interface_reader/interfaces_mgr.c:336-360 | if the receiver is a root, the first holder outside its tree keeps its clock |
| InterfaceTimes.FrameMovesNone | src/interface_reader/interfaces_mgr.c:397-402 | with no holder outside its tree, no clock moves but that of an interface at its first frame |
| InterfaceTimes.RunPristine | src/interface_reader/interfaces_mgr.c:397-402 | over every run, an interface waits for its origin as long as it lives and has received no data frame |
| InterfaceTimes.RunFirstFrame | src/interface_reader/interfaces_mgr.c:397-402 | over every run, the first data frame of an interface, if nobody else has received it recently, is handed on with the time 0 |
| InterfaceTimes.RunAligns | src/interface_reader/interfaces_mgr.c:402-445 | over every run, a frame has one absolute time at its receiver and at the first holder of every other tree, where it counts as received when it was received last |
| InterfaceManager.Manager.GetAbsoluteTimestamp | src/interface_reader/interfaces_mgr.c:247-260 | the loop over the parents returns the packet time plus the offset of the interface in its tree |
| InterfaceManager.Manager.RebaseParent | src/interface_reader/interfaces_mgr.c:294-313 | path compression changes no root and no clock |
| InterfaceManager.Manager.GetRoot | src/interface_reader/interfaces_mgr.c:282-292 | returns the root, for a path of any depth, and leaves the interface a root or directly below it |
| InterfaceManager.Manager.ReversePath | src/interface_reader/interfaces_mgr.c:361-382 | the reversal loop, for a path of any depth, moves the whole second tree under the first interface |
| InterfaceManager.Manager.SyncTime | src/interface_reader/interfaces_mgr.c:315-384 | all four branches on the parent pointers compute the abstract synchronisation of roots and offsets |
| InterfaceManager.Manager.CreateHandle | src/interface_reader/interfaces_mgr.c:213-231 | the new handle is prepended, is a root and adds one time base |
| InterfaceManager.Manager.DestroyHandle | src/interface_reader/interfaces_mgr.c:233-245 | the handle goes with its time base if it was a root; the manager stays valid if and only if no handle had it as parent |
| InterfaceManager.Iface.CheckDuplicatePacket | src/interface_reader/interfaces_mgr.c:447-491 | on the hash container with SHA-1 keys: says whether the digest of the frame is in the window and updates the window as the recency rule demands; the cells of the container stay the interface's own |
| InterfaceManager.Iface.GetOldPacket | src/interface_reader/interfaces_mgr.c:493-512 | returns the time stored for the SHA-1 digest of the frame if and only if the container has it |
| InterfaceManager.Manager.CheckMultisnifferPacket | src/interface_reader/interfaces_mgr.c:430-445 | synchronises with another handle exactly when that handle holds the packet |
| InterfaceManager.Manager.ProcessPacket | src/interface_reader/interfaces_mgr.c:386-428 | the whole handling of a packet, with its containers on the heap and SHA-1 as digest, equals the abstract transition: clocks, windows, time bases, forwarded frames |
| RecentWindow.WindowIsRecency | src/interface_reader/interfaces_mgr.c:447-491 | after any history the window is the last 100 of the last sightings of all distinct digests, in recency order |
| RecentWindow.DuplicateIff | src/interface_reader/interfaces_mgr.c:447-491 | a packet is called a duplicate if and only if its digest was seen and fewer than 100 other distinct digests arrived since |
| RecentWindow.HeldIsLatest | src/interface_reader/interfaces_mgr.c:493-512 | what the window holds of a digest is what its latest sighting recorded |
| RecentWindow.LastSightingsSound | src/interface_reader/interfaces_mgr.c:447-491 | the reference reading of a history has each of its digests once |
| DuplicateFilter.Filter.CheckDuplicatePacket | src/sniffer_packet_parser.c:424-467 | the filter on the hash container with SHA-1 keys answers and updates as the recency window, for a packet of any length below 2^32 |
| DuplicateFilter.Filter.GetOldPacket | src/interface_reader/interfaces_mgr.c:493-512 | returns what was stored with the digest of the packet if and only if the window has it |
| SnifferParser.Parser.CheckAll | src/sniffer_packet_parser.c:424-467 | over a whole capture: a packet is dissected if and only if no packet with its digest came before with fewer than 100 other digests in between, and the container ends as the replay of the capture |
| DuplicateFilter.KeyInjective | src/sniffer_packet_parser.c:424-440 | different digests leave different 20 bytes in memory |
| Sha1Rounds.F1 | src/sha1.c:286-286 | the rewritten F1 is the choice function of FIPS 180-4 section 4.1.1 |
| Sha1Rounds.F3 | src/sha1.c:288-288 | the rewritten F3 is the majority function of section 4.1.1 |
| Sha1Rounds.RingWord | src/sha1.c:317-319 | the word that `M` computes from the 16-word ring is the word of the full 80-word schedule of section 6.1.2 |
| Sha1Rounds.RingMoves | src/sha1.c:317-319 | writing it back keeps the ring holding the last 16 schedule words |
| Sha1Rounds.M | src/sha1.c:317-319 | the macro on the array, for every round from 16 on |
| Sha1Rounds.R | src/sha1.c:321-326 | one macro line, whichever registers it names, is one round of section 6.1.2 up to the rotation of the names |
| Sha1Rounds.AllRounds | src/sha1.c:338-417 | the 80 lines as written end in the working variables of the definition after round 79 |
| Sha1Rounds.CompressRing | src/sha1.c:328-417 | the body of the block loop computes the 80 rounds of the definition for every block and chaining value |
| Sha1Spec.PadIsLeast | src/sha1.c:98-113 | the padded message of section 5.1.1, in terms of its length and bytes |
| Sha1Example.DigestOfAbc | src/sha1.c:56-66 | the constants, functions and rotations give the message abc the digest that section 7.3 of RFC 3174 lists |
| Words.SwappedLoad | src/sha1.c:330-336 | loading a word on a little-endian host and swapping it reads the block in big-endian order |
| Words.SwappedStore | src/sha1.c:84-88 | storing a swapped word on such a host leaves its bytes most significant first |
| Words.DoubleShift | src/sha1.c:106-108 | shifting a pair of 32-bit words left by three, joined with a bitwise or, multiplies the number that they stand for by eight, modulo 2^32 in the high word |
| Sha1.CarryIsExactIff | src/sha1.c:308-313 | the two-word byte count is exact if and only if the length is below 2^32 or the addition does not overflow twice |
| Sha1.CarryCanBeLost | src/sha1.c:308-313 | a call with 2^33 bytes on a fresh context loses a carry |
| Sha1.Context.ProcessBlock | src/sha1.c:295-425 | whole blocks of any number are absorbed into the chaining value and counted |
| Sha1.Context.ProcessBytes | src/sha1.c:210-275 | a chunk of any length below 2^32, aligned or not, extends the absorbed message by exactly its bytes; at most 64 bytes wait |
| Sha1.PaddingIsStandard | src/sha1.c:98-113 | fill bytes and bit count complete the message to the padding of section 5.1.1, in one block or two |
| Sha1.BitCount | src/sha1.c:106-108 | the bytes that the two shifted, or-joined and swapped 32-bit count words leave in memory are the 64-bit message length in bits, most significant byte first |
| Sha1.Context.FinishCtx | src/sha1.c:94-116 | returns the FIPS 180-4 digest of everything absorbed |
| Sha1.Sha1Buffer | src/sha1.c:195-208 | the digest of one buffer is the FIPS 180-4 digest |
| Sha1.Sha1Chunks | src/sha1.c:94-116 | for every split into chunks and every alignment, init, process and finish give the digest of the concatenation |
| Sha1.ReadCtxIsDigest | src/sha1.c:79-90 | the twenty bytes that the swapped words leave in memory are the digest as the standard writes it |
| HashLinks.MaskIsRemainder | src/uthash.h:198-201 | masking with 2^k - 1 is the remainder by the number of buckets |
| HashLinks.BucketIsRemainder | src/uthash.h:198-201 | so in a table of 2^k buckets an element is on the chain of the remainder of its hash value |
| HashLinks.IdealIsCeiling | src/uthash.h:677-679 | the shift-and-mask formula is the ceiling of items over new buckets |
| HashLinks.IdealIsPositive | src/uthash.h:690-691 | so the division by the ideal length is defined for every table that expands |
| HashBuckets.LinkHead | src/uthash.h:611-622 | an element becomes the head of its chain with right links both ways; no other chain changes |
| HashBuckets.UnlinkFromChain | src/uthash.h:625-635 | an element leaves its chain, whose order and links stay right; no other chain changes |
| HashBuckets.FindInBucket | src/uthash.h:597-608 | walks a chain of any length and finds an element with the key, or there is none on it |
| HashBuckets.AbsentFromChain | src/uthash.h:94-105 | a key that is not on the chain its hash value selects is nowhere in the table |
| HashBuckets.ExcessUpdate | src/uthash.h:688-689 | how one more element on a chain changes the number of elements beyond the ideal length |
| HashBuckets.MoveElem | src/uthash.h:684-699 | moves one element to its new bucket and keeps count, delay factor and the non-ideal count right |
| HashBuckets.Redistribute | src/uthash.h:680-704 | all elements go to twice as many buckets, each on the chain of its masked hash value; the number of items is conserved; the non-ideal count is the sum of the excesses |
| HashTable.Table.ExpandBuckets | src/uthash.h:666-712 | doubling keeps the table consistent and the order of elements, and decides about further expansion as the two counters say |
| HashTable.Table.AddToBucket | src/uthash.h:611-622 | adds to the bucket, and doubles the buckets if and only if its chain has then ten elements, times the delay factor of the bucket plus one, and expansion is allowed |
| HashTable.Table.AddKeyPtr | src/uthash.h:173-196 | the new element stands last; everything HASH_FSCK checks still holds, across the first element and across doublings |
| HashTable.Table.Find | src/uthash.h:94-105 | finds an element with the key if and only if the table has one |
| HashTable.Table.Delete | src/uthash.h:215-248 | exactly the element goes, the order of the others stays, the last element frees the table |
| HashTable.Table.Clear | src/data_info/hash_container.c:272-287 | the deleting iteration ends with an empty valid table |
| OrderedMap.StepIsMapUpdate | src/data_info/hash_container.c:125-182 | add in its three modes, delete and clear do to every key what they do in a map, and keep keys unique |
| OrderedMap.RunIsMap | src/data_info/hash_container.c:125-287 | over every run a container answers for every key as a map would |
| OrderedMap.RunOrder | src/data_info/hash_container.c:108-123 | over every run the entries stand in the order in which the present lives of their keys began |
| HashContainer.Container.AddRef | src/data_info/hash_container.c:125-182 | the three add modes on the table are the step of the ordered map; result and was-existing flag are exact |
| HashContainer.Container.Value | src/data_info/hash_container.c:184-209 | get or create: the answer, the flag and the one appended entry |
| HashContainer.Container.Delete | src/data_info/hash_container.c:258-270 | deletes the key if and only if it is there |
| HashContainer.Container.Dup | src/data_info/hash_container.c:77-99 | a container of its own with the same entries in the same order |
| HashContainer.Container.Size | src/data_info/hash_container.c:289-296 | the number of entries, of the empty table too |
| HashContainer.Iterator.Inc | src/data_info/hash_container.c:351-362 | the iterator visits the entries in order |
| HashContainer.Iterator.DeleteValue | src/data_info/hash_container.c:413-431 | deletes the entry under the iterator, which then stands at the entry after it |
| MergeSort.SortedElements | src/uthash.h:719-796 | the bottom-up merge sort permutes, whatever the comparison does |
| MergeSort.SortedIsStable | src/uthash.h:719-796 | for every total preorder the result is ordered and equal elements keep their order |
| MergeSort.MergeOrdered | src/uthash.h:745-783 | merging two neighbouring runs keeps the stable order |
| MergeSort.PassDoublesRuns | src/uthash.h:734-788 | a pass over a list of any length doubles the length of its sorted runs |
| MergeSort.OneMergeIff | src/uthash.h:787-793 | a pass makes at most one merge if and only if the list is at most two runs long, which is when the sort may stop |
| HashSort.MergeRuns | src/uthash.h:745-783 | the inner loop on the links is the functional merge and leaves the rest of the list in place |
| HashSort.PassLinks | src/uthash.h:730-787 | one pass on the links, with its merge count, is the functional pass; back links are right |
| HashSort.Sort | src/uthash.h:719-796 | HASH_SRT terminates with the stable sorting of the table, right links and ends, and untouched buckets |
| UtList.DList.Append | src/utlist.h:513-525 | appending to a doubly linked list whose head points back at the tail |
| UtList.DList.Delete | src/utlist.h:548-564 | deleting any element of it, in all four branches |
| UtList.DList.Sort | src/utlist.h:171-232 | DL_SORT2 gives the stable sorting with right links and the head pointing back at the tail |
| UtList.LList.Prepend | src/utlist.h:312-316 | prepending to a singly linked list |
| UtList.LList.Sort | src/utlist.h:108-165 | LL_SORT2 gives the stable sorting of a singly linked list |
| UtList.LList.Delete | src/utlist.h:352-366 | the search for the predecessor and the unlinking |
| Address.MaskedIsClear | src/data_info/address.c:183-188 | a word that is zero under the mask of n rounds of the loop has its first n bits clear |
| Address.SameUnderMask | src/data_info/address.c:183-199 | words equal under the mask have the same first n bits |
| Address.SameIsUnderMask | src/data_info/address.c:183-199 | and words with the same first n bits are equal under the mask |
| Address.JoinMasked | src/data_info/address.c:189-196 | masking the little-endian words with the swapped mask masks the address in network order |
| Address.CompareIpLen | src/data_info/address.c:176-209 | returns 0 if and only if the first min(length, 128) bits agree, for every length, negative ones included |
| Address.CompareIp | src/data_info/address.c:153-168 | returns 0 if and only if the addresses are equal |
| Address.FullPrefixIsEquality | src/data_info/address.c:176-209 | at length 128 the prefix comparison is equality |
| Address.PrefixTransitive | src/data_info/address.c:176-209 | sharing a prefix is symmetric and transitive |
| Address.GlobalIp | src/data_info/address.c:109-146 | an autoconfigured address matches its prefix in the first min(length, 64) bits, has zero bits from there to bit 64, and then the bits of the MAC, the universal bit (bit 6) turned over; it yields back the MAC |
| Address.MaskedTail | src/data_info/address.c:120-130 | a word under the mask of n rounds has no bit from n on |
| Address.LocalIpRoundTrip | src/data_info/address.c:95-107 | a link-local address is in fe80::/64 and yields back its MAC |
| Address.LocalIpBits | src/data_info/address.c:95-107 | its low half has the bits of the MAC, the universal bit turned over, as RFC 4291, appendix A, says |
| Address.MacOfIpBits | src/data_info/address.c:83-93 | the MAC taken from any address has the bits of its low half, the universal bit turned over |
| Address.LocalIpExample | src/data_info/address.c:95-107 | fe80::212:7400:102:304 belongs to the MAC 0x0012740001020304 |
| Routes.AddedIsUpdate | src/data_info/route.c:53-79 | adding a route sets the next hop of its prefix and of no other, and keeps one entry per prefix |
| Routes.RemovedIsUpdate | src/data_info/route.c:81-98 | removing takes the prefix away if its next hop is the given one, and touches no other |
| Routes.RunIsMap | src/data_info/route.c:53-98 | over every run of additions and removals the list is a map from prefixes to next hops |
| RouteLists.RouteList.Add | src/data_info/route.c:53-79 | the walk along the linked list, with prefix comparison, is the map update; the flag is set exactly if the very route was there, reset for a new entry, and left as the caller passed it when the next hop is replaced |
| RouteLists.RouteList.Remove | src/data_info/route.c:81-98 | the walk unlinks exactly the matching element |
| RouteLists.RouteList.Get | src/data_info/route.c:36-50 | finds an entry if and only if the next hop of the prefix is the given node |
| RouteLists.RouteList.Dup | src/data_info/route.c:106-125 | copying element by element behind a cursor gives a list with elements of its own and the same entries in the same order |
| RingBuffer.PushIsEnqueue | src/circular_buffer.c:91-103 | a push appends unless one slot less than the size is used |
| RingBuffer.PopIsDequeue | src/circular_buffer.c:105-118 | a pop takes the oldest element |
| RingBuffer.RunIsQueue | src/circular_buffer.c:91-118 | over every run the buffer is a queue with room for size - 1 |
| RingBuffer.PushesSpareLent | src/circular_buffer.c:105-118 | no number of pushes overwrites the slot that the last pop handed out |
| RingBuffer.LentSurvives | src/circular_buffer.c:105-118 | so the element that a pop handed out is still in its slot after any number of pushes |
| RingBuffer.Buffer.PushFront | src/circular_buffer.c:91-131 | the method on the array is the push |
| RingBuffer.Buffer.PopBack | src/circular_buffer.c:105-141 | the method on the array is the pop and returns the place of the oldest element |
| NetworkState.GetContent | src/data_info/rpl_data.c:401-440 | get-or-create adds the object and changes the fields of no object |
| NetworkState.TouchContent | src/data_info/node.c:192-198 | a setter changes the tracked fields of its object and of no other |
| NetworkState.DropContent | src/data_info/rpl_data.c:481-497 | removing a link removes it and nothing else |
| NetworkInvariant.GetKeepsInv | src/data_info/rpl_data.c:401-440 | creating keeps: flag set exactly while an event is queued, unchanged objects in the newest snapshot as they are, every event resolvable |
| NetworkInvariant.TouchKeepsInv | src/data_info/node.c:192-198 | so does every setter, the event being queued for the first change only |
| NetworkInvariant.CountKeepsInv | src/data_info/node.c:627-642 | so does counting a packet, which sets no flag |
| NetworkInvariant.DropKeepsInv | src/data_collector/rpl_collector.c:196-216 | so does removing an unchanged object and queueing its Deleted event |
| NetworkCommit.CommitSettles | src/data_collector/rpl_event_callbacks.c:133-178 | a commit empties the queue, clears all flags, and leaves the newest snapshot of every kind equal to its working set, object by object in order; snapshots and versions only grow |
| NetworkCommit.EventsResolve | src/data_collector/rpl_event_callbacks.c:181-258 | every queued event resolves to an object: created and updated ones as they are in the working set, deleted ones as last published |
| NetworkCommit.PublishKeepsVersions | src/data_info/rpl_data.c:499-539 | the versions of the kinds in the published network versions are non-decreasing, resolvable, and the last names the newest snapshots |
| CollectorMembers.MemberIsKnown | src/data_info/dodag.c:181-201 | what stands in a member list is a known node that names that DODAG, and stands in no other list |
| CollectorMembers.AddNodeGood | src/data_info/dodag.c:268-315 | joining keeps memberships agreeing both ways; the DODAG left is found; the node ends in the new one alone |
| CollectorMembers.DioGood | src/data_collector/rpl_collector.c:48-113 | a DIO keeps the store invariant and the memberships |
| CollectorMembers.ParseGood | src/data_collector/rpl_collector.c:48-353 | every packet does |
| CollectorEffects.DioJoins | src/data_collector/rpl_collector.c:48-113 | after a DIO its sender names the DODAG of the DIO and stands in its member list and no other, whatever it named before |
| CollectorEffects.DaoRoutes | src/data_collector/rpl_collector.c:116-247 | over a whole DAO: the target gets its sender as next hop at the destination, a No-Path DAO takes it away only if it went through the sender, other prefixes keep their next hop |
| CollectorEffects.AddNodeRouteInstalls | src/data_info/node.c:602-615 | the prefix leads to the given node afterwards, no other prefix is touched, and skipping an existing route loses nothing |
| CollectorEffects.DelNodeRouteRemoves | src/data_info/node.c:617-625 | only a route through the given node is taken away |
| CollectorEffects.FlagMembersCounts | src/data_info/dodag.c:181-201 | going through the members counts one configuration error for each time a differing node occurs among them, and changes nothing else in any object |
| DioResults.DioNodes | src/data_collector/rpl_collector.c:48-113 | a whole DIO and any node: the sender names the DODAG and has one packet more; configuration errors count one for each differing option at the sender and, for a DIO of rank 0 or of the root rank, one for each differing member; the node is marked if and only if it was, it changed or it is the sender; nothing else of it changes |
| DioResults.DioInstances | src/data_collector/rpl_collector.c:90-99 | a DIO of rank 0 or of the root rank sets the mode of operation of its instance and lists its DODAG last if it was not listed; any other DIO leaves every instance as it is |
| DioResults.DioDodags | src/data_info/dodag.c:268-315 | the sender stands last in the list of the DODAG of the DIO, if it was not in it, and leaves the list of the one it named before; only a DIO of a root sets an instance, and only of a DODAG that the instance did not list |
| DioResults.DioLinks | src/data_collector/rpl_collector.c:48-113 | a DIO changes no link |
| DaoResults.DaoNode | src/data_collector/rpl_collector.c:116-247 | a whole DAO and any node: the child has one packet more and one more loop error if the path lasts and its routes lead to the parent, one more address error, one more DODAG error if both ends name DODAGs and the parent's has another address than the DAO; nothing else of any node changes but routes |
| DaoResults.DaoHops | src/data_collector/rpl_collector.c:227-238 | over a whole DAO, every next hop of every node: a lasting path sets that of the target at the parent, a No-Path DAO takes it away if it went through the child, all others stay |
| DaoResults.DaoLinks | src/data_collector/rpl_collector.c:160-225 | the link is removed if and only if the path lifetime is 0 and the child's own address has the target's prefix; it is live and has one packet more after any other lifetime; with one preferred parent a lasting path deprecates the other links of the child; without transit option no link changes |
| DataResults.DataNode | src/data_collector/rpl_collector.c:270-353 | a whole data packet and any node: the sender has one packet more and each error counter grows by one exactly when the packet reports or reveals the error |
| DataResults.DataRoutes | src/data_collector/rpl_collector.c:325-353 | every next hop of every node: toward the root the destination gets a route to the source address through the sender, away from the root the sender gets one to the destination address through the destination; all others stay |
| DataResults.DataLinks | src/data_collector/rpl_collector.c:310-323 | toward the root the link of sender and destination is live with one packet more, and with one preferred parent the sender's others are deprecated; nothing else that is no node changes |
| DataResults.DisResult | src/data_collector/rpl_collector.c:251-268 | a DIS makes its sender known, counts a packet and marks it; nothing else changes |
| Publishing.PacketTold | src/data_collector/rpl_event_callbacks.c:67-131 | every packet is announced once, and of each object one event is queued: created if it is new, deleted if it is gone, updated if it is marked for the first time; no other event is |
| Publishing.CommitPublishes | src/data_collector/rpl_event_callbacks.c:133-178 | a commit publishes one snapshot, of the working set as it is, of each kind of which something is queued, and of no other; and one version of the network if there is any |
| Publishing.PacketPublishes | src/data_collector/rpl_event_callbacks.c:133-178 | if nothing is pending, a packet leads to a new snapshot of a kind if and only if it creates, changes or removes an object of that kind |
| Publishing.ClearErrorsResult | src/data_info/node.c:950-970 | afterwards every node has zero counters, is marked, is told of if it was not marked before, and has its other fields as before; no other object has changed |
| Publishing.ClearLinksResult | src/data_info/link.c:254-281 | afterwards a link is there, as it was, if and only if it was there and not deprecated; each of the others is told to be gone; nothing else has changed |
| CollectorRuns.RefreshLive | src/data_collector/rpl_collector.c:178-193 | after a DAO or a packet toward the root the link of child and parent is live, with one preferred parent the only one of the child; links of other children stay |
| CollectorRuns.DaoLeavesOneLink | src/data_collector/rpl_collector.c:178-193 | with one preferred parent a DAO of non-zero path lifetime (RFC 6550 section 6.7.8) leaves exactly the link to its destination live |
| CollectorRuns.ClearLinksIsFilter | src/data_info/link.c:254-281 | clearing terminates, keeps exactly the live links in order, and queues one Deleted event for each of the others |
| CollectorRuns.RunKeeps | src/data_collector/rpl_collector.c:48-353 | over every run of packets and clearings: the event protocol, memberships both ways, and one live link per child at most |
| CollectorRuns.PacketSettles | src/packet_parsers/rpl_parser.c:493-563 | over every run, after a packet the queue is empty and every kind agrees with its newest snapshot |
| CollectorRuns.SnapshotsFrozen | src/data_info/rpl_data.c:207-399 | over every run a published abstract snapshot, and the list of published versions, never changes afterwards |
| NetworkStore.Family.Create | src/data_info/rpl_data.c:401-440 | a new object at the end of the working container, on the objects |
| ObjectKeys.MacKeyInjective | src/data_info/dodag.c:298-301 | different MAC references have different key bytes, so a member set in a container loses nobody |
| ObjectKeys.AddMac | src/data_info/dodag.c:298-301 | `hash_add` on a container with these keys is insertion into the member set |
| ObjectKeys.DeleteMac | src/data_info/dodag.c:306-315 | `hash_delete` is removal from it |
| NetworkObjects.Obj.Dup | src/data_info/node.c:142-161 | the copy has the same fields and a route list or container of its own, with the same entries; nothing that existed before is reachable from its cells |
| NetworkObjects.Obj.EditRoutes | src/data_info/node.c:602-625 | adding and removing a route edits the list of this very object in place and reports whether the route was there |
| NetworkObjects.Obj.InsertMember | src/data_info/dodag.c:298-301 | a member goes into the container of this very DODAG |
| NetworkObjects.Obj.DeleteMember | src/data_info/dodag.c:306-315 | a member leaves it if and only if it was there |
| NetworkObjects.Obj.InsertDodag | src/data_info/rpl_instance.c:129-148 | a DODAG goes into the container of this very instance |
| NetworkObjects.Obj.RealShows | src/data_info/node.c:142-161 | following the pointers of an object element by element one finds exactly its tracked state |
| NetworkStore.Family.Edit | src/data_info/node.c:602-625 | a setter, also one that edits a route list or a container in place, changes one row of the working set and nothing that any snapshot reaches |
| NetworkStore.Family.SetChanged | src/data_info/node.c:192-198 | the changed flag is set in the working object and in no other |
| NetworkStore.Family.AddCount | src/data_info/node.c:200-219 | the counter is written into the working object and into its copy in the newest snapshot; no tracked field of any snapshot changes although objects are shared |
| NetworkStore.Family.Carry | src/data_info/rpl_data.c:225-249 | a changed object is copied with all that its pointers lead to, an unchanged one is shared with the snapshot before and found there with the same fields and counter |
| NetworkStore.Family.AddVersion | src/data_info/rpl_data.c:207-255 | the snapshot built with sharing is the full copy of the working set; flags are cleared; the working and the published objects still have no cell in common |
| NetworkStore.Family.NewestAgrees | src/data_info/rpl_data.c:354-399 | when nothing is pending, every working object agrees with its copy in the newest snapshot in tracked fields and packet counter |
| NetworkStore.Family.SnapshotOnHeap | src/data_info/rpl_data.c:207-399 | reading a published object on the heap, pointer by pointer, gives what the abstract snapshot has |
| Collector.Store.ContainerOf | src/data_info/rpl_data.c:142-204 | version 0 is the working set, a version without a snapshot has no container, any other has the snapshot it names |
| Collector.Store.Write | src/data_info/dodag.c:298-315 | an edit in place of one object is the abstract edit of the whole store |
| Collector.Store.DelNodeFrom | src/data_info/dodag.c:306-315 | the method on the objects is the abstract leaving of a DODAG |
| Collector.Store.AddNodeTo | src/data_info/dodag.c:268-304 | the method on the objects is the abstract joining; its assertion holds |
| Collector.Store.SetNodesChanged | src/data_info/dodag.c:181-201 | the iterator over the container of members visits them in order, and both assertions hold at every member |
| Collector.Store.DeprecateAllFrom | src/data_info/link.c:229-251 | the loop over the links, in order |
| Collector.Store.CollectDio | src/data_collector/rpl_collector.c:48-113 | the method on the objects is the abstract DIO transition, whose results `DioResults` states object by object |
| Collector.Store.CollectDao | src/data_collector/rpl_collector.c:116-247 | the method on the objects is the abstract DAO transition, whose results `DaoResults` states object by object |
| Collector.Store.CollectDis | src/data_collector/rpl_collector.c:251-268 | the method on the objects is the abstract DIS transition |
| Collector.Store.CollectData | src/data_collector/rpl_collector.c:270-353 | the method on the objects is the abstract transition of a data packet, whose results `DataResults` states object by object |
| Collector.Store.AddVersions | src/data_collector/rpl_event_callbacks.c:144-170 | the loop over the queue makes one new snapshot for each kind with an event and for no other |
| Collector.Store.Resolve | src/data_collector/rpl_event_callbacks.c:181-252 | the lookup whose result is dereferenced without a check succeeds |
| Collector.Store.ProcessEvents | src/data_collector/rpl_event_callbacks.c:181-258 | every event is delivered in order with the object it is about; the queue ends empty |
| Collector.Store.ReceivePacket | src/packet_parsers/rpl_parser.c:493-563 | packet event, collector, commit: the whole is the abstract transition, and afterwards every kind agrees with its newest snapshot |
| Collector.Store.ClearAllDeprecated | src/data_info/link.c:254-281 | the rounds of search and removal are the abstract clearing |
| Collector.Store.ClearAllErrors | src/data_info/node.c:950-970 | the loop over the nodes is the abstract clearing, whose result `Publishing.ClearErrorsResult` states |
| Analyser.ExtendedShows | src/data_info/rpl_data.c:207-399 | whenever the abstract histories have only grown, every object published before shows on the heap, pointer by pointer, what it showed then |
| Analyser.Perform | src/data_collector/rpl_collector.c:48-353 | so it is after each packet and each request: routes edited in place, members added and deleted in place, counters written back into published objects, links removed |
| Analyser.PerformAll | src/data_info/rpl_data.c:207-399 | over every run from the start, each object published at any time shows at the end what it showed when it was published, its routes and members included |

## Left out

- Multi-threading: packets and user-interface calls are steps, one after the other; mutexes and spin locks are not modelled.
- `inferfacemgr_set_master_time` and `interfacemgr_set_origin`: the first cuts a parent without counting the new root, so the count of time bases does not survive it; the second is only called from there.
- Destroying a handle that others have as parent: the pointers then dangle; the exact condition is in `TimeForest.RemoveWfIff`.
- `time_t` overflow: seconds are unbounded, and time values are normal pairs by type, as `timeradd` and `timersub` expect.
- InterfaceManager.Manager.ProcessPacket: frames of 2^32 bytes and more, which the `int` length of the source rules out.
- DuplicateFilter.Filter.CheckDuplicatePacket: what is stored with a digest is one value, a time stamp in the interfaces; that it is a copy of the whole packet in front of the dissector is not modelled.
- `sha1_stream`: reads a file; and SHA-1 collision resistance: window properties are about digests.
- Sha1.Context.ProcessBytes: chunks of 2^32 bytes and more, for which the count is wrong exactly as `Sha1.CarryIsExactIff` says.
- malloc failure, 32-bit overflow of `num_buckets` and of the sort's run length, Bloom filters, HASH_SELECT, alternative hash functions, the VS2008 macro variants.
- HashContainer.Iterator.DeleteValue: stepping the iterator backwards after a deletion; its stale `prev` is kept but nothing is claimed of it.
- `hash_remove_ref`: always returns null, which no caller uses.
- CDL_SORT2: the loops of DL_SORT2 with a closed ring; no code of the analyser sorts.
- UtList.LList.Sort: runs the pass that also writes back links, which a singly linked list ignores.
- `addr_compare_wpan`: truncates a 64-bit difference to an int, so it does not decide equality; nothing is built on it here.
- Big-endian hosts: the masks in `addr_compare_ip_len` are right on little-endian ones only.
- `expiration_time` of a route: stored but never used by the table; `route_del_all_outdated` does nothing.
- `circular_buffer_create` with size 0: nothing could ever be pushed; the buffer here has a slot.
- Fields without change tracking: `sixlowpan_*_delta` counters, `actual_*` deltas, `has_seen_*` flags, `last_update` of a link, `global_address` and the `sixlowpan_errors` counters of a node; snapshots promise nothing about them.
- The remaining tracked fields of nodes and DODAGs (configurations, prefix information, statistics): a change of them is the flag and the event it causes.
- Collector.Store.CollectDio: whether configurations and prefixes differ from those stored is part of the packet, because they are not part of the store; the rank of the sender and the rank given to roots are numbers of the packet.
- Collector.Store.CollectDao: whether the destination address matches the parent's, and the global addresses of child and parent, are parts of the packet, because addresses are not part of the store.
- Collector.Store.SetNodesChanged: which members differ in their configuration is part of the packet, because configurations are not part of the store.
- Collector.Store.CollectData: the rank of the destination is part of the packet, because ranks are not part of the store.
- NetworkStore.Family.Carry: the working set and the snapshots of a kind are sequences of references with a linear search; that a hash container of such references behaves so is what `HashContainer` proves, but the two are not put together.
- Collector.Store.ProcessEvents: callbacks only receive the object; what they do with it is not modelled.
- `has_errors`, packet numbers and time stamps of network versions; `rpldata_clear`, which resets the store even while events are queued.
- Turning on one preferred parent after links exist: the claim of one live link is for runs in which the setting does not change.
- The tshark process, pipes, signals, pcap files, XML parsing, dynamic loading, `descriptor_poll.c`, `rpl_parser.c` but for the end of a packet, `metric.c`, `pcap_reader.c`: plumbing, or string dispatch into fields.
