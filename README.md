# FastClick flow core, modelled in Dafny

This project models the flow-processing core of FastClick, the batching,
flow-aware fork of the Click modular router, and proves properties of it.

- **Per-core flow table** (`VirtualFlowManager`): the free-FCB stack of
  `FlowManagerIMPState`, the sizing of each per-core table, the parsing of
  the recycle interval and timeout, the layout of an FCB's reserved bytes,
  and the `maintainer` that first returns the FCBs released at the last
  recycle to the stack, then sweeps the timer-wheel entries that have come
  due, expiring idle flows and rescheduling the others.
- **Exact-match index** (`RteHash`): DPDK's `rte_hash`, seen only through
  the lookups, insertions and deletions the elements make.
- **Classifier front ends**: `FlowIPManagerPrefetch`, which looks up or
  inserts each packet's key and groups consecutive packets of the same slot
  into one batch, and `FlowIPManagerFuzzy`, which takes the slot as the
  aggregate annotation modulo the table size. Both use a batch builder
  (`BatchBuilder`): the run being built and the slot it belongs to.
- **Per-flow elements**: `SourceCounter` (packets per IPv4 address),
  `FlowMinPacket` (holds a flow back until it has sent `MIN` packets),
  `FlowRateLimiter` (token-bucket admission per flow) and `FlowLargeFcb`
  (a research element that reads and rewrites large per-flow state).
- **`SimpleCache`**: a 2-way set-associative tag cache indexed by a
  packet's hash annotation.
- **`HashAnalysis`**: a research flow manager that synthesises 5-tuples
  around random ids and histograms how a hash spreads them over 2^22
  buckets.
- **`Flow`**: the test of whether an FCB's data area is all zero.
- **`Glue`**: `struct timeval` arithmetic and comparison, normalised on a
  carry or borrow of one second.
- **`SpanTree`**: the port-state machine of `EtherSpanTree`, the spanning
  tree element of the Ethernet switch (clause 8.4 of IEEE 802.1D-1998).
- **`Router`**: the handler flag predicates, the `Hookup` equality and the
  router lifecycle predicates.

State the source updates in place is a Dafny `class` whose methods carry
`modifies` clauses, and loops are `while` loops with their invariants. Each
method is specified against a function of the old state: `Sweep` for the
maintainer's sweep, `Elect` for the spanning-tree election, `Step` for a
cache lookup, and `Update` for the large-FCB rewrite. The properties the
source promises are proved as lemmas about those functions. `Common`
holds the shared definitions: 32-bit wrap-around, powers of two, sums and
histograms.

Clocks, random draws, the hash function and the bridge-message operations
are parameters of the operations that use them.

## Model

| member | source | states |
|---|---|---|
| Glue.MakeTimeval | include/click/glue.hh:270-277 | both fields are stored verbatim, so the timeval denotes `sec * 10^6 + usec` microseconds |
| Glue.Plus | include/click/glue.hh:315-325 | the sum denotes the sum of the two instants, and it is normalised when both operands are |
| Glue.Minus | include/click/glue.hh:327-337 | the difference denotes the difference of the instants, and it is normalised when both operands are |
| Glue.TimevalVar.AddAssign | include/click/glue.hh:315-325 | `+=` leaves the variable holding `Plus` of its old value and the operand |
| Glue.TimevalVar.SubAssign | include/click/glue.hh:327-337 | `-=` leaves the variable holding `Minus` of its old value and the operand |
| Glue.Add | include/click/glue.hh:339-344 | `a + b` on a copy equals what `+=` computes, and denotes the sum of the instants |
| Glue.Sub | include/click/glue.hh:346-351 | `a - b` on a copy equals what `-=` computes, and denotes the difference of the instants |
| Glue.TimerAdd | include/click/glue.hh:244-255 | the `timeradd` macro computes the same value as `+` |
| Glue.TimerSub | include/click/glue.hh:256-266 | the `timersub` macro computes the same value as `-` |
| Glue.EqualityIsPairEquality | include/click/glue.hh:279-289 | `==` holds iff both fields are equal, and `!=` is its exact negation |
| Glue.OrderIsLexicographic | include/click/glue.hh:291-313 | `>` and `>=` mirror `<` and `<=`, each is the complement of another, `<=` is `<` or `==`, and `<` is irreflexive, transitive and total |
| Glue.OrderMatchesInstants | include/click/glue.hh:291-295 | on normalised timevals `<` and `==` agree with the order and equality of the instants denoted |
| Glue.TimerCmpAgrees | include/click/glue.hh:239-242 | `timercmp` with each of the six comparison operators agrees with the matching timeval operator |
| Glue.MinusUndoesPlus | include/click/glue.hh:315-337 | subtracting a normalised timeval after adding it gives back the original normalised timeval |
| Router.NewHandler | include/click/router.hh:555-562 | a fresh handler keeps its name and has no thunks, flags 0, use count 0, `next_by_name` -1 and null hooks, so it is neither readable, writable nor visible |
| Router.BlankHandler | include/click/router.hh:688-696 | the blank handler has flags 0 and is neither readable nor writable |
| Router.VisibleIffReadOrWrite | include/click/router.hh:603-649 | `visible` holds iff the handler is readable or writable; `read_visible` and `write_visible` coincide with `readable` and `writable` |
| Router.FlagsAreIndependent | include/click/router.hh:603-673 | each flag test looks at its own bit only (`OP_READ` 0x1, `OP_WRITE` 0x2, `READ_PARAM` 0x4, `EXCLUSIVE` 0x10, `RAW` 0x20): setting any other bit never changes it |
| Router.DefaultHookup | include/click/router.hh:133-137 | the default `Hookup` has index -1 and leaves the port as it was |
| Router.HookupEquality | include/click/router.hh:347-357 | `==` holds iff index and port are equal, and `!=` is its exact negation |
| Router.Ordinal | include/click/router.hh:161-164 | the lifecycle states are numbered 0 to 4 in declaration order |
| Router.InitializedImpliesHandlersReady | include/click/router.hh:382-397 | `initialized()` implies `handlers_ready()`, and `handlers_ready()` holds exactly in the preinitialize, live and dead states |
| Router.StopRuncountIsInt32Min | include/click/router.hh:35 | `STOP_RUNCOUNT` is the least 32-bit signed integer |
| Flow.Empty | lib/flow.cc:37-45 | the scan returns true iff every byte in `[sizeof(FlowNodeData), data_size)` is zero, and true when that range is empty; it writes nothing |
| Flow.HeaderIgnored | lib/flow.cc:38 | the header bytes before `sizeof(FlowNodeData)` are never inspected: FCBs that agree past the header are empty alike |
| Flow.OneByteMakesNonEmpty | lib/flow.cc:37-45 | any non-zero byte in the data area makes the FCB non-empty, and a zeroed FCB is empty |
| Common.NextPow2 | elements/research/simplecache.cc:45 | `next_pow2(n)` is a power of two that is at least `n` and below `2n`, and 1 for `n <= 1` |
| Common.MaskIsMod | elements/research/simplecache.cc:58 | masking with `p - 1` for a power of two `p` is reduction modulo `p`, so a masked index is below `p` |
| FlowMinPacket.FMPState.constructor | elements/flow/flowminpacket.hh:22-25 | a new flow's state starts with count 0 and no buffer |
| FlowMinPacket.FlowMinPacket.NewFlow | elements/flow/flowminpacket.hh:48-50 | every flow is accepted |
| FlowMinPacket.FlowMinPacket.PushFlow | elements/flow/flowminpacket.cc:29-44 | the count grows by the batch size; at or over `MIN` the buffer is dropped and only this batch is output; below `MIN` nothing is output and the batch becomes or extends the buffer |
| FlowMinPacket.ForwardedStaysForwarded | elements/flow/flowminpacket.cc:31-37 | the count never decreases, so once one batch of a flow is forwarded every later one is forwarded too |
| FlowMinPacket.BufferedThenForwarded | elements/flow/flowminpacket.cc:32-44 | a fresh flow whose first batch stays below `MIN` and whose second reaches it outputs only the second batch and ends with no buffer |
| FlowRateLimiter.Remove | elements/flow/flowratelimiter.cc:61 | removing tokens the bucket holds takes exactly that many; removing more empties it; rate and capacity are kept, and a well-formed bucket stays well formed |
| FlowRateLimiter.BurstTokens | elements/flow/flowratelimiter.cc:45-50 | the burst is `RATE * dur_msec / 1000`, saturated to `UINT_MAX` when it needs more than 32 bits |
| FlowRateLimiter.ConfigureHelper | elements/flow/flowratelimiter.cc:27-54 | both burst arguments together are an error and nothing else is; otherwise the bucket gets the rate and a capacity in `[1, UINT_MAX]`: `BURST_SIZE` (1 when it is 0), else the burst from the duration (default 20 ms), 1 in place of 0 |
| FlowRateLimiter.Max1 | elements/flow/flowratelimiter.cc:52 | `tokens ? tokens : 1` |
| FlowRateLimiter.Admitted | elements/flow/flowratelimiter.cc:60-64 | a batch the bucket covers is forwarded whole; otherwise `min(capacity, count)` of its packets are |
| FlowRateLimiter.FRLState.constructor | elements/flow/flowratelimiter.hh:23-25 | the per-flow state holds the bucket it is given |
| FlowRateLimiter.FlowRateLimiter.NewFlow | elements/flow/flowratelimiter.hh:49-52 | the flow's bucket becomes a copy of the configured template, and the flow is accepted |
| FlowRateLimiter.FlowRateLimiter.PushFlow | elements/flow/flowratelimiter.cc:57-70 | after the refill, the first `Admitted` packets are output, the rest (if any) killed, and that many tokens removed from the flow's bucket |
| FlowRateLimiter.AdmissionBounds | elements/flow/flowratelimiter.cc:59-67 | no batch forwards more than the capacity, a batch within the capacity is forwarded whole, the bucket stays well formed, and a covered batch costs exactly its size |
| FlowRateLimiter.ShortBucketForwardsWhole | elements/flow/flowratelimiter.cc:63-67 | a batch above the tokens but within the capacity is still forwarded whole and leaves the bucket empty |
| FlowRateLimiter.DefaultBurst | elements/flow/flowratelimiter.cc:31-52 | with no burst argument the capacity is `max(1, RATE * 20 / 1000)`; a rate of 1000 gives 20 |
| FlowMinPacket.FlowMinPacket.constructor | elements/flow/flowminpacket.cc:19-27 | `configure` keeps the mandatory MIN and nothing has been pushed |
| FlowRateLimiter.FlowRateLimiter.constructor | elements/flow/flowratelimiter.cc:19-25 | `configure` keeps the template bucket and nothing has been pushed or killed |
| FlowLargeFcb.CRem | elements/research/flowlargefcb.cc:90 | C's `%` truncates toward zero: the remainder lies strictly between `-m` and `m`, equals the Euclidean one for non-negative `x` and is its negation's negation for negative `x` |
| FlowLargeFcb.LargeFCBState.constructor | elements/research/flowlargefcb.hh:17-19 | the state constructor zeroes all 10 entries of `inplace_array` and leaves `iarray` unassigned |
| FlowLargeFcb.Update | elements/research/flowlargefcb.cc:85-90 | one packet adds `a % 10` to entry 0 when the sum `a` of the first `SIZE` entries exceeds 10, and changes nothing otherwise; entries 1..9 never change, and a `SIZE` of 0 or less changes nothing |
| FlowLargeFcb.FlowLargeFcb.constructor | elements/research/flowlargefcb.cc:82-92 | `SIZE` defaults to 1 and `PREFETCH` to 0 |
| FlowLargeFcb.FlowLargeFcb.NewFlow | elements/research/flowlargefcb.cc:56-64 | every flow is accepted, with no allocation |
| FlowLargeFcb.FlowLargeFcb.SumPrefix | elements/research/flowlargefcb.cc:85-88 | the inner loop computes the sum of the first `SIZE` entries, and 0 when `SIZE` is negative |
| FlowLargeFcb.FlowLargeFcb.UpdateOne | elements/research/flowlargefcb.cc:85-90 | one packet leaves its state's in-place array equal to `Update` of its old contents |
| FlowLargeFcb.FlowLargeFcb.PushFlowBatch | elements/research/flowlargefcb.cc:79-94 | the k-th packet uses the k-th `flowdata` entry, so every state ends as `Update` applied once per appearance of that state in the batch |
| FlowLargeFcb.FlowLargeFcb.PushOne | elements/research/flowlargefcb.cc:83-91 | after packet `i`, every state reflects one more appearance of `flowdata[i]` and no other change |
| FlowLargeFcb.FlowLargeFcb.PushFlow | elements/research/flowlargefcb.cc:96-105 | each of `iarray[0..10)` becomes its `Tick` (`(x + 1) % 500` from a value in range), the rest of `iarray` is untouched and the batch is forwarded |
| FlowLargeFcb.Tick | elements/research/flowlargefcb.cc:99-102 | from a value in `[0, 500)` one call gives `(x + 1) % 500` |
| FlowLargeFcb.UpdateNMonotone | elements/research/flowlargefcb.cc:85-90 | any number of packets leaves entries 1..9 alone and, with non-negative entries, never lowers entry 0 |
| FlowLargeFcb.SmallSumIsFixed | elements/research/flowlargefcb.cc:89 | a state whose first `SIZE` entries sum to at most 10 never changes |
| FlowLargeFcb.TicksCountModulo | elements/research/flowlargefcb.cc:99-102 | from zero, `n` calls of `push_flow` leave `n % 500` in every entry |
| SimpleCache.RowIndex | elements/research/simplecache.cc:57-58 | the row of a hash is `hash & row_mask`, equal to `hash` modulo the row count and so always in range |
| SimpleCache.Way | elements/research/simplecache.cc:60-61 | the search finds a way iff the hash is one of the row's tags, and finds the first such way |
| SimpleCache.Access | elements/research/simplecache.cc:57-74 | afterwards the hash is a tag of the row; a hit keeps the tags and makes the other way the candidate; a miss overwrites way `rnd % SETS_NUM` only and makes the other way the candidate |
| SimpleCache.Step | elements/research/simplecache.cc:54-75 | one lookup touches only the hash's row, leaves the hash cached, and adds one (mod 2^32) to the hit counter on a hit or to the miss counter on a miss |
| SimpleCache.Hashes | elements/research/simplecache.cc:57 | each packet's hash is its 32-bit annotation at offset 20 |
| SimpleCache.SimpleCache.constructor | elements/research/simplecache.cc:37-52 | `ROWS` is rounded up to a power of two, `row_mask` is one less, and every row is zeroed |
| SimpleCache.SimpleCache.Smaction | elements/research/simplecache.cc:54-75 | the cache moves by one `Step` and the packet comes back unmodified |
| SimpleCache.SimpleCache.Push | elements/research/simplecache.cc:77-83 | one `Step`, then the packet is output |
| SimpleCache.SimpleCache.PushBatch | elements/research/simplecache.cc:86-94 | `smaction` runs on every packet in batch order, then the whole batch is output |
| SimpleCache.EveryPacketCounted | elements/research/simplecache.cc:60-68 | every packet is counted exactly once, as a hit or a miss: the two counters together advance by the batch size modulo 2^32 |
| SimpleCache.RepeatHits | elements/research/simplecache.cc:60-72 | a hash just looked up hits on the next lookup, whatever the random draws, and that hit changes no tag |
| SimpleCache.ZeroedTableHitsZero | elements/research/simplecache.cc:45-49 | a freshly zeroed table holds tag 0 everywhere: hash 0 hits before any insertion and every other hash misses |
| SimpleCache.MissReplacesOneWay | elements/research/simplecache.cc:68-72 | a miss writes the hash into the drawn way and leaves the other way's tag |
| SourceCounter.KeyOffset | elements/flow/sourcecounter.cc:30-32 | the key offset is 14 + 12 = 26 (IPv4 source address after the Ethernet header) with ISSRC set and 14 + 16 = 30 (destination address) otherwise |
| SourceCounter.Key | elements/flow/sourcecounter.cc:85 | a packet's key is the 4 bytes at the key offset |
| SourceCounter.Keys | elements/flow/sourcecounter.cc:84-88 | the keys are collected in batch order, one per packet |
| SourceCounter.AlignedSizeRoundsUp | elements/flow/sourcecounter.cc:53 | `(s + 63) & ~63` is the least multiple of 64 not below `s` |
| SourceCounter.StateTakesOneLine | elements/flow/sourcecounter.cc:53 | one 4-byte state is padded to a full 64-byte line |
| SourceCounter.Bump | elements/flow/sourcecounter.cc:98-99 | insertion attempts are counted in `_insertions` only when VERBOSE is set |
| SourceCounter.BumpStep | elements/flow/sourcecounter.cc:98-99 | with VERBOSE, one more attempt adds one to the 32-bit counter |
| SourceCounter.InsertionsStep | elements/flow/sourcecounter.cc:96-99 | the insertion counter follows the keys the bulk lookup missed |
| SourceCounter.SourceCounter.constructor | elements/flow/sourcecounter.cc:19-69 | CAPACITY defaults to 65536, ISSRC to 1, CACHE to 1 and VERBOSE to 0; the offset follows ISSRC; the index starts empty, `_insertions` at 0 and every count at 0 |
| SourceCounter.SourceCounter.NewFlow | elements/flow/sourcecounter.hh:54-71 | without CACHE the flow is accepted and nothing changes; with CACHE an attempt is counted when VERBOSE, and the flow is accepted iff the address is indexed or there is room, the index then mapping it to the position stored in `*state`; a rejected flow leaves `*state` and the index alone |
| SourceCounter.SourceCounter.PushFlow | elements/flow/sourcecounter.cc:71-74 | the flow's batch is forwarded |
| SourceCounter.SourceCounter.CountPacket | elements/flow/sourcecounter.cc:94-108 | one packet: a missed key is inserted (counted when VERBOSE); if that fails the packet is not counted and the index is full, otherwise the count at the key's position grows by one |
| SourceCounter.SourceCounter.Locate | elements/flow/sourcecounter.cc:95-104 | the position is the looked-up one for a known key, else a fresh position below the capacity that no key holds; a failed insertion means the index is full and leaves it unchanged |
| SourceCounter.SourceCounter.PushLookup | elements/flow/sourcecounter.cc:79-110 | the non-cached path counts a prefix of the batch, one per packet at its key's position, keeping old keys' positions; it stops only at a key that cannot be inserted because the index is full; the insertion counter follows the misses up to there |
| SourceCounter.SourceCounter.CountAll | elements/flow/sourcecounter.cc:93-109 | the packet loop over the bulk lookup's results counts every packet up to the first failed insertion, and no further |
| SourceCounter.SourceCounter.PushCached | elements/flow/sourcecounter.cc:111-120 | the cached path adds one to the count at `*fcb[i]` for every packet |
| SourceCounter.SourceCounter.PushFlowBatch | elements/flow/sourcecounter.cc:77-121 | with CACHE, one count per packet at its stored position and the index untouched; without CACHE, every packet is counted by its key, or the packets before the first new key that finds the index full, and `_insertions` grows by the misses looked at when VERBOSE |
| SourceCounter.SourceCounter.Read | elements/flow/sourcecounter.cc:126-140 | `count` reads the number of indexed addresses, `insertions` the counter, anything else is an error |
| SourceCounter.SourceCounter.Write | elements/flow/sourcecounter.cc:142-146 | every write fails with -1 |
| SourceCounter.LookedUpAt | elements/flow/sourcecounter.cc:91 | the i-th bulk lookup result is non-negative iff the i-th key is indexed, and is then its position |
| SourceCounter.KnownKeyStep | elements/flow/sourcecounter.cc:106 | counting one packet of an indexed key keeps the lookup path's progress |
| SourceCounter.NewKeyStep | elements/flow/sourcecounter.cc:97-106 | inserting a key at an unused position and counting its packet keeps the lookup path's progress |
| SourceCounter.CountStep | elements/flow/sourcecounter.cc:106 | one more packet counted at its key's position |
| SourceCounter.CountAtStep | elements/flow/sourcecounter.cc:117-118 | one more packet counted at its stored position |
| SourceCounter.CachedMatchesLookup | elements/flow/sourcecounter.cc:79-120 | with the positions `new_flow` stored, counting per address and counting per stored position give the same counts |
| SourceCounter.PositionsMultiset | elements/flow/sourcecounter.cc:111-120 | a position occurs among the stored positions as often as its address among the keys, and an unused position never occurs |
| VirtualFlowManager.Parse | include/click/flow/virtualflowmanager.hh:205-207 | the stored interval is the 16-bit truncation of the millisecond interval; 0 divides by zero and nothing else does; `epochs_per_sec` is the number of whole intervals in a second, at least 1; the timeout in ms is `TIMEOUT * 1000` modulo 2^32, exact up to 4294967 s |
| VirtualFlowManager.TableCapacity | include/click/flow/virtualflowmanager.hh:49 | the per-table capacity is a power of two at least `CAPACITY / weight` and, when that is positive, below twice it |
| VirtualFlowManager.FullDelay | include/click/flow/virtualflowmanager.hh:66 | the wheel size and a new flow's delay is `TIMEOUT * epochs_per_sec`, exact when it fits 32 bits |
| VirtualFlowManager.LinkAfterKey | include/click/flow/virtualflowmanager.hh:127-152 | with the maintainer and a timeout, the flow id (offset 0), the key (offset 4) and the release link (offset `reserve_size()`) occupy disjoint ranges in that order |
| VirtualFlowManager.LinkAfterFlowId | include/click/flow/virtualflowmanager.hh:142-152 | without a timeout the release link follows the 4-byte flow id |
| VirtualFlowManager.RecordsDisjoint | include/click/flow/virtualflowmanager.hh:137-140 | record `i` starts `i` records in, so records never overlap |
| VirtualFlowManager.FlowIds | include/click/flow/virtualflowmanager.hh:222 | the stored flow ids of a chain of records, in chain order |
| VirtualFlowManager.FlowManagerIMPState.constructor | include/click/flow/virtualflowmanager.hh:56-92 | one table: an empty index of `capacity` entries, a wheel of `FullDelay` slots when the maintainer runs with a timeout, `capacity` zeroed FCBs, and a stack of `capacity + 1` entries holding `0 .. capacity-1` with `capacity - 1` on top |
| VirtualFlowManager.FlowManagerIMPState.FillStack | include/click/flow/virtualflowmanager.hh:75-77 | pushing `0 .. n-1` onto an empty stack leaves exactly those ids, in order |
| VirtualFlowManager.FlowManagerIMPState.Empty | include/click/flow/virtualflowmanager.hh:26-28 | the stack is empty iff `flows_stack_i < 0` |
| VirtualFlowManager.FlowManagerIMPState.Push | include/click/flow/virtualflowmanager.hh:22-24 | the id goes on top and `flows_stack_i` grows by one |
| VirtualFlowManager.FlowManagerIMPState.Pop | include/click/flow/virtualflowmanager.hh:18-20 | the top id is returned and removed, and `flows_stack_i` drops by one |
| VirtualFlowManager.FlowManagerIMPState.PushThenPop | include/click/flow/virtualflowmanager.hh:18-24 | a push then a pop returns the pushed id and restores the stack and `flows_stack_i` |
| VirtualFlowManager.FlowManagerIMPState.ScheduleFcbTimeout | include/click/flow/virtualflowmanager.hh:104-109 | a new FCB is armed `TIMEOUT * epochs_per_sec` epochs ahead |
| VirtualFlowManager.FlowManagerIMPState.Drain | include/click/flow/virtualflowmanager.hh:220-224 | every record on the pending-release list has its stored flow id pushed, head first, and the list ends empty |
| VirtualFlowManager.FlowManagerIMPState.Maintainer | include/click/flow/virtualflowmanager.hh:214-287 | the drain frees exactly the records pending before the call; the sweep then does what `Sweep` says (queued records, index, wheel requests, `checker` or the abort), changing only the release links of newly queued records |
| VirtualFlowManager.FlowManagerIMPState.SweepDue | include/click/flow/virtualflowmanager.hh:229-284 | the callback runs on every due entry in order until one aborts, with the effect `Sweep` specifies |
| VirtualFlowManager.FlowManagerIMPState.Release | include/click/flow/virtualflowmanager.hh:258-259 | the record's link gets the old head and the record becomes the head of the pending list |
| VirtualFlowManager.FlowManagerIMPState.Expire | include/click/flow/virtualflowmanager.hh:255-266 | the key is removed and `checker` grows by one; the removal returns the key's old lookup; the record is queued iff that removal succeeded (`Queued`: a non-negative position), and otherwise nothing else changes |
| VirtualFlowManager.FlowManagerIMPState.Visit | include/click/flow/virtualflowmanager.hh:235-283 | one callback invocation has the effect `Apply` gives its decision, touching at most the visited record's link |
| VirtualFlowManager.StepIsApply | include/click/flow/virtualflowmanager.hh:229-283 | a sweep that has not aborted applies the callback's decision for the entry |
| VirtualFlowManager.TraceIsSweep | include/click/flow/virtualflowmanager.hh:229 | the states the loop goes through end in `Sweep` of the due entries |
| VirtualFlowManager.AbortAbsorbs | include/click/flow/virtualflowmanager.hh:230-234 | once the sweep aborts, later entries change nothing |
| VirtualFlowManager.ExpiryThreshold | include/click/flow/virtualflowmanager.hh:237-281 | below the loop guard an entry expires iff it was last seen before `recent` and `old + recycle_interval_ms`, taken modulo 2^32, is at least `TIMEOUT * 1000`; while that sum is below 2^32 this is the plain comparison of idle time plus interval with the timeout; one last seen at or after `recent` is re-armed for the full delay; any other entry is rescheduled for the remaining delay unless its link points to itself |
| VirtualFlowManager.ExpiryWraps | include/click/flow/virtualflowmanager.hh:249-251 | with a 1 s timeout and a 1 ms recycle interval, a flow idle for 2^32 + 1 ms is not expired but rescheduled after 999 epochs, because `int old` plus the interval is compared as an unsigned 32-bit value |
| VirtualFlowManager.LoopGuard | include/click/flow/virtualflowmanager.hh:230-234 | once `checker` reaches the capacity the next entry aborts the sweep |
| VirtualFlowManager.RemainingDelayExact | include/click/flow/virtualflowmanager.hh:270-271 | without wrap-around the rescheduling delay is the remaining idle budget in epochs, rounded down, and never exceeds the full delay |
| VirtualFlowManager.RemainingDelayWraps | include/click/flow/virtualflowmanager.hh:270-271 | with a 7200 s timeout and 1000 epochs per second the 32-bit product wraps: a flow idle for 1 ms is rescheduled after 2905031 epochs instead of 7199999 |
| VirtualFlowManager.SweepFacts | include/click/flow/virtualflowmanager.hh:229-286 | the sweep only removes keys of due entries; every record it queues was due, idle long enough, held a position in the index and lost its key; it makes at most `capacity` expiry attempts and queues at most one record per attempt |
| VirtualFlowManager.Queued | include/click/flow/virtualflowmanager.hh:255-256 | an expired record is queued exactly when removing its key returned a non-negative position, i.e. the removal succeeded |
| VirtualFlowManager.QueuedAsWritten | include/click/flow/virtualflowmanager.hh:255-256 | as written, an expired record is queued exactly when the removal returned 0 |
| VirtualFlowManager.AsWrittenLeaksSlot | include/click/flow/virtualflowmanager.hh:255-264 | with the test as written, an expired flow whose key sat at a position other than 0 loses its key but is not queued, so its flow id never returns to the stack |
| VirtualFlowManager.ExpiredIsQueued | include/click/flow/virtualflowmanager.hh:255-264 | with the corrected test, an expiry removes the key, and queues the record exactly when the key was in the index |
| RteHash.HashTable.constructor | elements/flow/sourcecounter.cc:47 | a created index is empty, with the capacity it was given |
| RteHash.HashTable.Lookup | elements/flow/flowipmanagerprefetch.cc:167-210 | a lookup returns the key's position, below the capacity, iff the key is present, and `-ENOENT` otherwise |
| RteHash.HashTable.LookupBulk | elements/flow/sourcecounter.cc:91 | a bulk lookup returns one single lookup per key, in the keys' order |
| RteHash.HashTable.Count | elements/flow/sourcecounter.cc:131-134 | the entry count is at most the capacity |
| RteHash.HashTable.AddKey | elements/flow/flowipmanagerprefetch.cc:212-220 | a present key keeps its position; a new key gets a position below the capacity that no other key holds, or `-ENOSPC` when the index is full |
| RteHash.HashTable.DelKey | include/click/flow/virtualflowmanager.hh:255 | deleting returns what a lookup would have returned and removes the key |
| RteHash.MissesPrefix | elements/flow/sourcecounter.cc:93-104 | a batch misses at least as often as any of its prefixes |
| FlowIPManagerPrefetch.Configure | elements/flow/flowipmanagerprefetch.cc:28-62 | a positive `TIMEOUT` is refused and nothing else is; CAPACITY defaults to 65536, VERBOSE to true and BULK_SEARCH to false; the reserve is `RESERVE` (default 0) plus the 4 bytes of the flow id |
| FlowIPManagerPrefetch.CountHandler | elements/flow/flowipmanagerprefetch.cc:332-343 | the `count` handler sums the entry counts of the tables that exist, and the sum never exceeds their total capacity |
| FlowIPManagerPrefetch.CountBounds | elements/flow/flowipmanagerprefetch.cc:332-343 | the summed count is at most the total capacity, and 0 when no table exists |
| FlowIPManagerPrefetch.FlowIPManagerPrefetch.constructor | elements/flow/flowipmanagerprefetch.cc:64-114 | the per-table size is `next_pow2(CAPACITY / weight)`, the index starts empty, the record size is the FCB size plus the reserve, and the FCB array is zeroed |
| FlowIPManagerPrefetch.FlowIPManagerPrefetch.Capacity | elements/flow/flowipmanagerprefetch.cc:367-370 | `capacity()` reports 0 |
| FlowIPManagerPrefetch.FlowIPManagerPrefetch.Count | elements/flow/flowipmanagerprefetch.cc:372-375 | `count()` reports 0 |
| FlowIPManagerPrefetch.FlowIPManagerPrefetch.Resolve | elements/flow/flowipmanagerprefetch.cc:201-220 | a positive `bulk_ret` is the slot as is; a `bulk_ret` of 0, though a valid slot, falls back to a single lookup; a negative result is handed to `add_key`, which keeps a present key's slot, gives a new key a free slot, or fails when the table is full |
| FlowIPManagerPrefetch.FlowIPManagerPrefetch.Flush | elements/flow/flowipmanagerprefetch.cc:246-253 | a non-empty run is pushed and the record at offset one record size is stamped with `recent`; an empty run changes nothing |
| FlowIPManagerPrefetch.FlowIPManagerPrefetch.Group | elements/flow/flowipmanagerprefetch.cc:234-260 | a packet of slot `b.last` extends the run; any other slot flushes the run and starts a new one with `last` set to the slot, owned by the record at offset one record size whatever the slot; no packet is lost or reordered |
| FlowIPManagerPrefetch.FlowIPManagerPrefetch.StartRun | elements/flow/flowipmanagerprefetch.cc:254-257 | the new run holds only the packet, `last` is the slot, and `fcb_stack` is the record at offset one record size |
| FlowIPManagerPrefetch.FlowIPManagerPrefetch.Process | elements/flow/flowipmanagerprefetch.cc:162-262 | the slot is resolved as `Resolve` says; a failed insertion kills the packet and leaves builder, `fcb_stack`, outputs and stamps alone; otherwise the packet is grouped as `Group` says |
| FlowIPManagerPrefetch.FlowIPManagerPrefetch.ProcessStep | elements/flow/flowipmanagerprefetch.cc:162-262 | one `process` call: the slot resolves as `Resolved` says; a packet killed on a failed insertion had a new key and met a full table, and leaves the runs as they were; a kept packet extends the runs of the kept packets by itself and its slot |
| FlowIPManagerPrefetch.KilledOnlyWhenFull | elements/flow/flowipmanagerprefetch.cc:201-220 | a packet is killed only when its key is new and the table is full, and the table is then unchanged; without a bulk result such a packet is always killed |
| FlowIPManagerPrefetch.FlowIPManagerPrefetch.PushBatch | elements/flow/flowipmanagerprefetch.cc:264-325 | with BULK_SEARCH the bulk results are the lookups of the offset-20 annotations before any insertion, and the i-th goes to the i-th packet; packet i resolves against the table the packets before it left; it is forwarded exactly when its slot is valid and killed only when its key is new and the table full; the pushed batches are the runs of equal slots among the forwarded packets, in order; record 1 is stamped with `recent` exactly when a batch was pushed; `fcb_stack` is reset |
| FlowIPManagerPrefetch.FlowIPManagerPrefetch.ProcessAll | elements/flow/flowipmanagerprefetch.cc:302-312 | `process` runs on every packet in batch order, with its bulk result when there are any; each packet resolves against the table the earlier ones left, is kept exactly when its slot is valid, and the pushed batches and the open run are the runs of equal slots among the kept packets |
| FlowIPManagerPrefetch.FlowIPManagerPrefetch.FlushRuns | elements/flow/flowipmanagerprefetch.cc:315-322 | the final `flush` completes the runs of the kept packets: the pushed batches are exactly those runs, their packets are the kept packets in order, and the timestamp of the FCB at offset one record size is `recent` iff anything was pushed |
| FlowIPManagerPrefetch.Anno20s | elements/flow/flowipmanagerprefetch.cc:289-296 | the bulk keys are the packets' offset-20 annotations, in batch order |
| FlowIPManagerFuzzy.Slot | elements/flow/flowipmanagerfuzzy.cc:105 | the slot is the aggregate annotation modulo the table size, so it is always below the table size, and it is the annotation itself when that is already in range |
| FlowIPManagerFuzzy.Slots | elements/flow/flowipmanagerfuzzy.cc:105 | the slots of a batch, one per packet, in order |
| FlowIPManagerFuzzy.SlotsCollide | elements/flow/flowipmanagerfuzzy.cc:105 | two packets share a record iff their aggregates differ by a multiple of the table size |
| FlowIPManagerFuzzy.FlowIPManagerFuzzy.constructor | elements/flow/flowipmanagerfuzzy.cc:38-88 | CAPACITY defaults to 65536 and RESERVE to 0; the current CPU's `table_size` records are zeroed |
| FlowIPManagerFuzzy.FlowIPManagerFuzzy.Capacity | elements/flow/flowipmanagerfuzzy.cc:170-174 | `capacity()` is the table size |
| FlowIPManagerFuzzy.FlowIPManagerFuzzy.Count | elements/flow/flowipmanagerfuzzy.cc:160-168 | `count()` always returns 0 |
| FlowIPManagerFuzzy.FlowIPManagerFuzzy.Flush | elements/flow/flowipmanagerfuzzy.cc:110-116 | a non-empty run is charged to `fcb_stack` with `acquire(count)` and pushed; an empty run changes nothing |
| FlowIPManagerFuzzy.FlowIPManagerFuzzy.Process | elements/flow/flowipmanagerfuzzy.cc:99-122 | a packet of slot `b.last` is appended; any other slot flushes the run, makes the slot's record `fcb_stack` and starts a new run with the packet; `b.last` is never assigned and no packet is lost or reordered |
| FlowIPManagerFuzzy.FlowIPManagerFuzzy.ProcessApart | elements/flow/flowipmanagerfuzzy.cc:109-121 | when `b.last` is no slot, every packet flushes the run before it and starts its own |
| FlowIPManagerFuzzy.FlowIPManagerFuzzy.ProcessEach | elements/flow/flowipmanagerfuzzy.cc:126-133 | after the loop every packet but the last was pushed as a batch of its own and charged to its slot, and the last is the builder's run |
| FlowIPManagerFuzzy.FlowIPManagerFuzzy.PushBatch | elements/flow/flowipmanagerfuzzy.cc:124-138 | since `last` never matches a slot, every packet goes out as a batch of its own, in order, and each record's use count grows by the number of packets of its slot |
| HashAnalysis.Aggregates | elements/flow/flowipmanagerhashanalysis.cc:121-122 | the lookup keys are the packets' aggregate annotations, in batch order |
| HashAnalysis.HashSizeIsPow2 | elements/flow/flowipmanagerhashanalysis.cc:77-86 | `_hash_size` is 2^22 and a power of two, and `maxValue` is 2^22 - 1 |
| HashAnalysis.Byte | elements/flow/flowipmanagerhashanalysis.cc:137-143 | `x & 255` is a byte value |
| HashAnalysis.SynthKey | elements/flow/flowipmanagerhashanalysis.cc:130-153 | the 13-byte key of id `g` is `170, 16, 10, g>>16 & 255, 172, 217, 21, 170, g>>8 & 255, g & 255, 1, 187, 6` |
| HashAnalysis.SynthKeyKeepsId | elements/flow/flowipmanagerhashanalysis.cc:130-153 | the id can be read back from its key for every id below 2^24 |
| HashAnalysis.SynthKeyInjective | elements/flow/flowipmanagerhashanalysis.cc:130-153 | distinct ids below 2^24 give distinct keys |
| HashAnalysis.BucketInRange | elements/flow/flowipmanagerhashanalysis.cc:112-156 | `(hash >> 10) & (_hash_size - 1)` is below the power-of-two size, and with 2^22 buckets it is all of `hash >> 10` |
| HashAnalysis.BucketsInRange | elements/flow/flowipmanagerhashanalysis.cc:156-158 | every bucket counted is within the table |
| HashAnalysis.CountStep | elements/flow/flowipmanagerhashanalysis.cc:154-159 | one more miss adds one to the bucket of the next id's key |
| HashAnalysis.Clamp | elements/flow/flowipmanagerhashanalysis.hh:107 | a count above 4 goes in bin 5, any other in its own bin |
| HashAnalysis.Clamps | elements/flow/flowipmanagerhashanalysis.hh:105-108 | one bin per bucket, in order |
| HashAnalysis.ClampedBins | elements/flow/flowipmanagerhashanalysis.hh:100-117 | bin `k` for `k <= 4` counts the buckets holding exactly `k` entries, and bin 5 those holding more than 4 |
| HashAnalysis.BinStep | elements/flow/flowipmanagerhashanalysis.hh:105-109 | one more bucket counted in its bin |
| HashAnalysis.BinsCoverBuckets | elements/flow/flowipmanagerhashanalysis.hh:105-109 | with non-negative counts the bins add up to the number of buckets |
| HashAnalysis.HashAnalysis.constructor | elements/flow/flowipmanagerhashanalysis.cc:31-47 | VERBOSE defaults to true and RANDOM_BYTES to 13; no table exists yet |
| HashAnalysis.HashAnalysis.Count | elements/flow/flowipmanagerhashanalysis.cc:175-179 | `count()` always returns 0 |
| HashAnalysis.HashAnalysis.Alloc | elements/flow/flowipmanagerhashanalysis.cc:49-105 | `_hash_size` becomes 4194304, the id counter 0 and every bucket 0, even when creation fails, which returns an error; on success the table is empty and the first 4000000 ids are distinct draws, strictly increasing |
| HashAnalysis.HashAnalysis.DrawIds | elements/flow/flowipmanagerhashanalysis.cc:92-97 | the set loop ends holding exactly 4000000 of the drawn values |
| HashAnalysis.HashAnalysis.WriteSorted | elements/flow/flowipmanagerhashanalysis.cc:99-102 | the set's values are written to the front of `_generated_numbers` in strictly increasing order, and the rest is untouched |
| HashAnalysis.HashAnalysis.BuildKey | elements/flow/flowipmanagerhashanalysis.cc:130-153 | the byte loop builds `SynthKey` of the id |
| HashAnalysis.HashAnalysis.CountMiss | elements/flow/flowipmanagerhashanalysis.cc:126-160 | a miss adds one to the next id's bucket and advances the id counter by one, changing no other bucket |
| HashAnalysis.HashAnalysis.FindBulk | elements/flow/flowipmanagerhashanalysis.cc:107-162 | `positions[i]` is the i-th packet's lookup result; the ids consumed and the buckets' total both grow by the number of misses, each miss in its own key's bucket; hits change neither |
| HashAnalysis.HashAnalysis.TallyMiss | elements/flow/flowipmanagerhashanalysis.cc:154-159 | a miss extends the histogram of the ids consumed by one |
| HashAnalysis.HashAnalysis.CountMisses | elements/flow/flowipmanagerhashanalysis.cc:121-161 | every negative lookup result consumes one id and counts its bucket; others consume nothing |
| HashAnalysis.HashAnalysis.Dump | elements/flow/flowipmanagerhashanalysis.hh:85-92 | `dump` lists the counts of the first 256 buckets |
| HashAnalysis.HashAnalysis.CountHandler | elements/flow/flowipmanagerhashanalysis.hh:93-99 | `count` is the sum of the first `_hash_size` buckets, which after `alloc` is the number of ids consumed |
| HashAnalysis.HashAnalysis.Conflict | elements/flow/flowipmanagerhashanalysis.hh:100-117 | with no negative count, `conflict` counts each bucket in the bin of its count clamped to 5, and the bins sum to `_hash_size` |
| SpanTree.Next | elements/etherswitch/spantree.cc:210 | `state + 1` is the state one step further along BLOCK, LISTEN, LEARN, FORWARD |
| SpanTree.Moved | elements/etherswitch/spantree.cc:196-216 | a port changes exactly when it is not already in the requested state; BLOCK is entered at once; FORWARD is approached one state at a time, so it is reached only from LEARN |
| SpanTree.MyId | elements/etherswitch/spantree.cc:160 | the priority shifted above the 48-bit bridge id fits in 64 bits |
| SpanTree.FollowsKeepsMatched | elements/etherswitch/spantree.cc:220-238 | suppressors set on every state change keep agreeing with the port states |
| SpanTree.Advanced | elements/etherswitch/spantree.cc:127-132 | ageing moves a listening or learning port older than the cutoff exactly one state on, since `now`, leaves every other port alone, never enters or leaves BLOCK and never raises a topology change |
| SpanTree.Assigned | elements/etherswitch/spantree.cc:174-191 | a port is blocked exactly when it is not the root port and the message heard on it beats what this bridge would send; otherwise it moves at most one state towards FORWARD, and only a port already forwarding forwards |
| SpanTree.Bumped | elements/etherswitch/spantree.cc:164-169 | the message one hop further has its cost raised by one and nothing else changed |
| SpanTree.Msgs | elements/etherswitch/spantree.cc:162-170 | the messages received on the ports, in order |
| SpanTree.Elect | elements/etherswitch/spantree.cc:158-170 | the root port is -1 and the best message the bridge's own, or the root port's message one hop further; no later port's message beats it |
| SpanTree.ElectSnoc | elements/etherswitch/spantree.cc:162-170 | one more port replaces the running best exactly when its message, one hop further, compares better |
| SpanTree.ElectNoRoot | elements/etherswitch/spantree.cc:158-170 | there is no root port exactly when no port's message, one hop further, beats the bridge's own |
| SpanTree.ElectIsBest | elements/etherswitch/spantree.cc:156-170 | under a total preorder the elected message is at least as good as the bridge's own and as every received message one hop further |
| SpanTree.EtherSpanTree.constructor | elements/etherswitch/spantree.cc:22-28 | both suppressors allow every port, `_topology_change` is null and `_send_tc_msg` false |
| SpanTree.EtherSpanTree.Initialize | elements/etherswitch/spantree.cc:84-93 | every port is asked to forward, `_send_tc_msg` is raised exactly when some port was blocked, the suppressors follow, and `_best` is the bridge's own root message |
| SpanTree.EtherSpanTree.SetState | elements/etherswitch/spantree.cc:196-241 | the result is whether the port was not in the requested state; only that port changes, to `Moved`; the suppressors are set for it exactly when it changed; `_send_tc_msg` is raised by FORWARD on a blocked port or BLOCK on an unblocked one |
| SpanTree.EtherSpanTree.Periodic | elements/etherswitch/spantree.cc:119-136 | each port's message is the old one aged against `now` less the old maximum age; every port is what `find_tree` assigns from its `Refreshed` self (advanced against `now` less the old forward delay, message aged); the root port and `_best` are the election over the aged messages; `_send_tc_msg` is raised exactly when that assignment moves a port; suppressors that agreed with the states still agree |
| SpanTree.AgedMoveRaisesNothing | elements/etherswitch/spantree.cc:127-132 | ageing never raises the topology change flag: a listening port moved to LEARN and left alone by the election ends in a new state with the flag down |
| SpanTree.EtherSpanTree.AdvanceAged | elements/etherswitch/spantree.cc:127-132 | every port becomes `Advanced`, the suppressors follow and `_send_tc_msg` is unchanged |
| SpanTree.EtherSpanTree.Expire | elements/etherswitch/spantree.cc:138-152 | every received message is aged against `now` less the maximum age, and the result is whether any of them expired |
| SpanTree.EtherSpanTree.FindTree | elements/etherswitch/spantree.cc:156-192 | the received messages are unchanged, the root port and `_best` are the election, every port becomes `Assigned`, `_send_tc_msg` is raised exactly when some port changed state, and the suppressors follow |
| SpanTree.EtherSpanTree.ElectRoot | elements/etherswitch/spantree.cc:158-170 | raising and restoring each cost leaves the ports unchanged, and the root port and `_best` are the election |
| SpanTree.EtherSpanTree.ElectOne | elements/etherswitch/spantree.cc:164-169 | one port's bumped message replaces `_best`, and the port becomes root, exactly when it compares better |
| SpanTree.EtherSpanTree.AssignPorts | elements/etherswitch/spantree.cc:174-191 | every port becomes `Assigned`, `_send_tc_msg` is raised exactly when some port changed state, and the suppressors follow |
| SpanTree.EtherSpanTree.AssignOne | elements/etherswitch/spantree.cc:177-190 | only port `i` changes, to `Assigned`, and its suppressors are set exactly when its state changed |
| SpanTree.EtherSpanTree.Push | elements/etherswitch/spantree.cc:245-261 | the message received on the port is replaced exactly when the new one is at least as good; every port is then `Assigned` from those ports; `_send_tc_msg` is cleared by an accepted acknowledgement and raised exactly when the assignment moves a port; the root port and `_best` are the election over the updated messages; suppressors that agreed still agree |
| SpanTree.EtherSpanTree.GeneratePacket | elements/etherswitch/spantree.cc:276-326 | nothing when the port's message beats `_best`, or equals it with no change pending; a notice when it equals it with a change pending; otherwise `_best` stamped with this bridge and port, `tc` set exactly while a recorded change is recent (an older one is cleared) and `tca` set when owed, which clears it |

## Left out

- `rte_hash` internals (cuckoo buckets, signatures, the hash function) and `flowipmanagerdpdk.cc`, a thin wrapper over them: the index is a map from keys to distinct positions below its capacity.
- RteHash.HashTable.AddKey: fails only when the index is full; the insertion failures a real cuckoo table can also have are not modelled.
- The timer wheel (`click/timerwheel.hh` is not part of this model): `run_timers` hands the callback the due entries as a sequence, and `schedule_after` is recorded in a log of (FCB, delay) pairs. `schedule_after_mp` and the commented-out `run_task` are unreachable.
- The table's `remove` (elements/flow/flowipmanagerdpdk.cc:115-120) returns `rte_hash_del_key`'s result, the position the key held, or `-ENOENT`: `RteHash.HashTable.DelKey` models exactly that.
- `TokenBucket` (its header is not part of this model): `contains`, `remove` and the capacity are modelled, and the token count `refill()` leaves is a parameter of `PushFlow`.
- `BridgeMessage` (its header is not part of this model): `compare` and its overloads, `reset`, `expire`, `from_wire`, `to_wire` and `fill_tcm` are parameters of `EtherSpanTree`.
- `BatchBuilder` and `Suppressor` (their headers are not part of this model): the builder is a (run, `last`) pair whose `init()` does not touch `last`, a fresh builder's `last` is taken to be no slot (-1, or any value outside the table), and a suppressor is a flag per port.
- Per-thread and concurrency machinery: `per_thread_oread`, the `__thread` `fcb_stack`, atomic counters, `move_thread` and cross-core aggregation. Each classifier models the current core's table, and hash analysis models table 0.
- Prefetch hints (`rte_prefetch0`, `rte_hash_prefetch` and `FlowLargeFcb`'s PREFETCH loop): they have no effect on state.
- Floating point: the `double` RECYCLE_INTERVAL is taken as an integer number of milliseconds, and `SimpleCache`'s `success_rate` handler is not modelled.
- Randomness: `click_random` in `SimpleCache` and `std::mt19937` in hash analysis are sequences of draws passed in. The CRC hash is a function parameter.
- Clocks: `Timestamp::recent_steady` and `click_gettimeofday` are parameters. Logging, `Args` parsing and handler registration are not modelled; `configure` becomes a constructor over the parsed arguments.
- `metron`, `rtpapi`, `batchMerge` and `flowacl` are not part of this model: they are control-plane I/O, foreign hardware counters, packet plumbing whose header and implementation disagree, and a pass-through.
- Fields the source leaves uninitialised start at fixed values. `flows_stack_i` starts at -1, as the stack fill needs. `SimpleCache`'s hit and miss counters are constructor parameters. `_send_tc_msg` starts false. Hash analysis's `_hash_size` and `_current_id_num` start at 0.
- VirtualFlowManager.FlowManagerIMPState.Drain: requires room on the free stack for every pending record. The source relies on pending ids never being on the stack, which the model's invariant does not track; Maintainer carries the same requirement.
- VirtualFlowManager.FlowManagerIMPState.Maintainer: requires room on the free stack for the pending records, as Drain does.
- Common.NextPow2: `next_pow2` is defined in a Click header that is not part of this model; the value 1 for `n <= 1` is the usual convention and is not checked against that header.
- SimpleCache.SimpleCache.constructor: requires ROWS at most 2^31, so that `next_pow2` stays within 32 bits.
- FlowIPManagerPrefetch.FlowIPManagerPrefetch.Process: requires a table of at least 2 records, because the FCB used is always the record at offset one record size.
- FlowLargeFcb.FlowLargeFcb.PushFlowBatch: requires distinct `flowdata` entries to hold distinct in-place arrays, and `SIZE` at most 10.
- FlowLargeFcb.FlowLargeFcb.PushFlow: requires `iarray` to be allocated with at least 10 entries; `new_flow` never allocates it.
- FlowIPManagerFuzzy.FlowIPManagerFuzzy.constructor: requires a positive CAPACITY, since the slot is taken modulo it.
- SourceCounter.SourceCounter.PushLookup: follows the evident intent that the bulk lookup writes its results into `positions`. As written, sourcecounter.cc:91 passes `ret`, an array of `int*` into `positions`, where `rte_hash_lookup_bulk` takes an `int32_t` array, so the call does not type-check, or leaves `positions` unwritten before sourcecounter.cc:95 reads it.
- SourceCounter.SourceCounter.PushFlowBatch: requires at most 64 packets on the non-cached path, the size of the key array.
- SourceCounter.SourceCounter.constructor: a failed `rte_hash_create` is not modelled.
- FlowRateLimiter.FlowRateLimiter.PushFlow: records a killed remainder only when fewer packets than the batch are admitted; elements/flow/flowratelimiter.cc:65 calls `split(n)->kill()` unguarded, and the model takes `split` of the whole batch to leave a null or empty remainder that `kill` ignores (the `PacketBatch` header is not part of this model).
- `release_flow` of `SourceCounter`, `FlowMinPacket` and `FlowRateLimiter` has an empty body and is not modelled.
- SourceCounter.SourceCounter.PushFlowBatch: like the source's `push_flow_batch`, it counts the packets but does not push the batch on; only `push_flow` forwards.
- Hash analysis `find`, `insert`, `insert2` and `remove` (elements/flow/flowipmanagerhashanalysis.cc:164-206) are not modelled as members of their own: each forwards to one `rte_hash` call, which `RteHash.HashTable` models. `configure`'s `find_children` and `reserve_size()` are framework plumbing.
- HashAnalysis.HashAnalysis.FindBulk: requires `current_id` plus the number of misses to stay within the generated-id array, a bound the source does not check (it writes past `_generated` otherwise).
- HashAnalysis.HashAnalysis.FindBulk: the bulk lookup is taken before the counting; the table is only read there, so this gives the same results.
- The string formatting of the hash-analysis handlers: `Dump` and `Conflict` return the numbers the handlers print.
- `EtherSpanTree`'s `hello_hook` and its timer, `read_msgs` and `configure`'s port-vector setup are not modelled.
- Nothing in `spantree.cc` ever records a topology change in `_topology_change`: the model keeps the field, which only `GeneratePacket` reads and clears.
- The port-state order BLOCK, LISTEN, LEARN, FORWARD, on which `state + 1` relies, is taken from clause 8.4 of IEEE 802.1D-1998 (`spantree.hh` is not part of this model).
- SpanTree.EtherSpanTree.Periodic: one `now` serves the ageing, the expiry and the assignment, where the source reads the clock several times.
- VirtualFlowManager.ExpiryThreshold: the conversion of the idle time to `int` and the sum with the interval are taken to wrap modulo 2^32; in C, a sum that overflows `int` (an idle time less than `_recycle_interval_ms` short of 2^31 ms) is undefined behaviour, which the model does not capture.
- SpanTree.EtherSpanTree.SetState: the source's `assert`s on the requested state are preconditions.
- Sums and bucket counts are unbounded integers: a 32-bit overflow of `inplace_array` entries or of a handler's sum is not modelled.

## Findings

| source | as written | input that shows it | evidently intended | confidence | as-written member | corrected member |
|---|---|---|---|---|---|---|
| include/click/flow/virtualflowmanager.hh:255-264 | `if (likely(pos==0))` queues the expired FCB only when `remove` returns 0, but the table's `remove` (elements/flow/flowipmanagerdpdk.cc:115-120) returns `rte_hash_del_key`'s result, which is the position the key held | an expired flow whose key sat at position 5: its key is removed, its FCB is never queued, and its flow id never returns to the free stack | queue the FCB whenever the removal succeeds (a non-negative return) | medium, not executed | VirtualFlowManager.AsWrittenLeaksSlot | VirtualFlowManager.ExpiredIsQueued |
