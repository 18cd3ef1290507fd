# Redis 6.2.5 control logic, modelled and proved in Dafny

The repository vendors Redis 6.2.5 under `redis/`. This project models five of its cores and proves
what they are for:

- **Cluster** (`Election`, `ConfigEpochs`, `SlotTable`, `SlotClaims`, `SlotRanges`): replica election,
  configuration epochs and their collisions, the table of hash slots, claims of slots, and the ranges
  printed to and loaded from the nodes file.
- **Append only file** (`AofBuffer`, `AofFlush`, `AofRewrite`, `AofLog`, `AofReplay`): the block list of
  the rewrite diff, flushing with short writes, the background rewrite with its handshake, the encoding
  of commands and its loader, and the selected database of two streams.
- **ACL** (`Acl`, `AclPrinter`): rules that change a user, and the greedy printer that turns a user back
  into rules.
- **Blocked clients** (`Blocked`, `BlockedFair`, `BlockedRuns`, `BlockedMoves`, `BlockedServer`): the
  mirrored indexes, the ready queue, fair service, the ends of lists, and whole runs of commands.
- **Bits** (`Bits`, `Popcount`, `Bitpos`, `Bitop`, `Powers`, `Bitfield`): word-parallel fast paths against
  their definition in single bits, and integer fields with overflow control.

`Options`, `Names`, `AofMode` and `Bytes` hold small shared types. Code that changes things in place is a class or a method on
arrays, proved against a function on values; what the code promises is then proved about that function,
over every input or every run. Node count, slot count, command table, block size and run length are
parameters everywhere.

Protocols are state machines: `Enabled` says when a step may happen, `Apply` what it does, `Legal` and
`Run` extend both to sequences of steps. Sockets, clocks, system calls and their failures are arguments of
the steps. Fields that exist only for proofs are the histories of votes, wins, held epochs and fed bytes.

## What was found

These properties do not hold of the code on all inputs. The code is modelled as it is; the exact condition is
proved, with a concrete case where one helps.

- **Two replicas can be elected in one epoch.** A replica that retries resets its vote count at
  `redis/src/cluster.c:3210` but asks for votes later. An ack of the previous election that arrives in
  between is counted, because `failover_auth_epoch` has not moved yet. `Election.StaleAckBreaksSafety` is
  a reachable schedule with three masters. `Election.ElectionSafety` holds for wins whose count contains no
  such ack, and `Election.CountIsExactIffNotStale` says that the count is the number of votes exactly then.
  The comment at `redis/src/cluster.c:1127-1129` says that this is not possible.
- **A file cut inside a transaction is repaired only halfway.** A cut inside a command truncates behind the
  last whole command, which leaves an open MULTI. A cut between two commands truncates in front of the last
  MULTI, which leaves one open when MULTI was nested. `AofLog.RepairedLogLoadsIff` says for every cut when the
  repaired file loads cleanly. Restarts alone end with what was run (`AofLog.RestartsSettle`), but a server
  that goes on appending closes the torn transaction with the next EXEC, and a later start runs commands that
  the start before had dropped (`AofLog.TornTransactionRevives`).
- **BITFIELD SET with OVERFLOW SAT** stores the maximum for values so far below a signed range that
  `max - value` leaves 64 bits (`Bitfield.SignedSetExactIff`), and for all negative values of an unsigned
  field (`Bitfield.UnsignedSetExactIff`). `Bitfield.SignedSetSaturatesWrong` and
  `Bitfield.UnsignedSetSaturatesWrong` are concrete values.
- **A blocked client can sleep on a key that holds what it waits for**, when the key is overwritten
  (`setKey` on an existing key does not signal), exactly as `BlockedRuns.StoreKeepsGoodIff` says.

- **Nodes that hear the same slot claims can disagree**, when the owner of a slot moved on to a newer epoch
  without it: whoever hears the owner first leaves the slot with it, whoever hears the claimant first gives it
  away. `SlotClaims.OrderMattersIffContested` says for every table when this happens.

One bound is better than expected: collisions make a master change its epoch at most as often as there are
masters with a greater name, in any asynchronous run (`ConfigEpochs.CollisionBound`).

## Model

| member | source | states |
|---|---|---|
| `Election.ClusterState.SendFailoverAuthIfNeeded` | redis/src/cluster.c:2894-2995 | the loop over the claimed slots and the other refusals decide the vote; when it is given, the last vote epoch is the current epoch and the epoch of the request |
| `Election.ClusterState.UpdateEpoch` | redis/src/cluster.c:1829-1834 | the current epoch becomes the greater of its own and the message's |
| `Election.ClusterState.ProcessAck` | redis/src/cluster.c:2175-2187 | an ack of a slot-serving master counts if its epoch is not below the election's, also between reset and request |
| `Election.ClusterState.HandleSlaveFailover` | redis/src/cluster.c:3134-3303 | the failover cron waits, resets the count, opens an election with a new epoch, or takes over at a quorum |
| `Election.HandlersAdvance` | redis/src/cluster.c:1829-1834 | no handler lowers any epoch, and votes and elections stay at or below the current epoch |
| `Election.VoteIsFresh` | redis/src/cluster.c:2894-2995 | a granted vote is the first of that master in that epoch, in every reachable state |
| `Election.VotesKept` | redis/src/cluster.c:2894-2995 | every step keeps all votes ever given: one vote per master and epoch |
| `Election.AcksKept` | redis/src/cluster.c:2175-2187 | every ack on the way stands for a vote that was given and not yet counted |
| `Election.AckTally` | redis/src/cluster.c:2175-2187 | a delivered ack adds one distinct voter of the running election, or one stale ack |
| `Election.FailoverTally` | redis/src/cluster.c:3206-3279 | the cron leaves the tally exact when it resets, opens or waits |
| `Election.StepKeepsInv` | redis/src/cluster.c:2894-3303 | every step of the cluster keeps epochs, requests, votes, acks, tallies and wins consistent |
| `Election.RunKeepsInv` | redis/src/cluster.c:2894-3303 | the same over every run |
| `Election.MajoritiesMeet` | redis/src/cluster.c:3141-3298 | two majorities of the masters share a voter |
| `Election.ElectionSafety` | redis/src/cluster.c:3206-3303 | in every run, two clean wins in the same epoch are of the same replica |
| `Election.CleanWinHasMajority` | redis/src/cluster.c:3282-3303 | a clean win has the votes of a majority of the slot-serving masters in that epoch |
| `Election.EveryVoteWasPermitted` | redis/src/cluster.c:2905-2986 | in every run each vote was given to a replica of a failed master, long after the last vote for it, by a voter that knew no claimed slot under a greater epoch |
| `Election.CleanWinWasPermitted` | redis/src/cluster.c:2965-2986 | a clean win has a majority of such voters |
| `Election.PermittedRequestIsGranted` | redis/src/cluster.c:2988-2995 | a request that no rule refuses gets its ack, and the vote is on record |
| `Election.OtherRequestIsRefused` | redis/src/cluster.c:2905-2986 | a request that some rule refuses leaves votes and acks as they were |
| `Election.CronActs` | redis/src/cluster.c:3134-3303 | exactly when the cron schedules, asks, takes over or does nothing; stale data and no manual failover mean nothing |
| `Election.CronLeaves` | redis/src/cluster.c:3206-3279 | the delays a scheduled election waits, the new epoch of an election that starts, and what stays |
| `Election.CountIsExactIffNotStale` | redis/src/cluster.c:3206-3279 | the vote count equals the distinct voters of the election if and only if no ack came between reset and request |
| `Election.StaleAckBreaksSafety` | redis/src/cluster.c:3206-3236 | a reachable schedule in which two replicas take over in the same epoch |
| `ConfigEpochs.EpochTable.GetMaxEpoch` | redis/src/cluster.c:1058-1073 | an upper bound of all known epochs that is one of them |
| `ConfigEpochs.EpochTable.BumpConfigEpochWithoutConsensus` | redis/src/cluster.c:1102-1119 | the new epoch is strictly above every known one when the current epoch dominates; a refusal means this node holds a greatest one |
| `ConfigEpochs.EpochTable.HandleConfigEpochCollision` | redis/src/cluster.c:1167-1182 | only the master with the smaller name moves, to a new epoch |
| `ConfigEpochs.EpochTable.UpdateFromHeader` | redis/src/cluster.c:1829-1840 | both epochs of a header are merged upwards |
| `ConfigEpochs.EpochTable.ProcessPing` | redis/src/cluster.c:2119-2126 | a ping merges the header, then resolves a collision |
| `ConfigEpochs.EpochTable.ProcessUpdate` | redis/src/cluster.c:2206-2222 | an update message raises the epoch of the node it is about |
| `ConfigEpochs.StepKeepsDominance` | redis/src/cluster.c:1829-1840 | every step keeps all nodes and all messages dominated by their current epoch |
| `ConfigEpochs.EpochDominance` | redis/src/cluster.c:2478-2480 | over every run each current epoch is at least every config epoch in the same table or message |
| `ConfigEpochs.PacketTeaches` | redis/src/cluster.c:2206-2222 | after a packet the receiver knows at least the epochs it carries, and nothing else about other nodes changed |
| `ConfigEpochs.PingSpreads` | redis/src/cluster.c:1829-1840 | a ping that is sent can be received, and then its receiver knows the sender's epochs |
| `ConfigEpochs.UpdateSpreads` | redis/src/cluster.c:2206-2222 | the same for an update about a third master |
| `ConfigEpochs.ElectionRaises` | redis/src/cluster.c:3258-3303 | an election starts in a new epoch, and its winner takes that epoch unless it has a newer one |
| `ConfigEpochs.NobodyForgets` | redis/src/cluster.c:1829-1840 | over every run no node lowers any epoch it knows |
| `ConfigEpochs.OwnEpochMoves` | redis/src/cluster.c:1167-1182 | a master's epoch moves only on a ping of a greater-named master with the same epoch |
| `ConfigEpochs.CollisionBound` | redis/src/cluster.c:1167-1182 | when epochs change by messages alone, a master moves at most as often as there are masters with a greater name |
| `ConfigEpochs.GreatestNeverMoves` | redis/src/cluster.c:1167-1182 | the master with the greatest name never moves |
| `ConfigEpochs.FreshPingMoves` | redis/src/cluster.c:2119-2126 | a fresh ping makes a master move if and only if the epochs are equal and the sender's name is greater |
| `ConfigEpochs.ResolvedIffDistinct` | redis/src/cluster.c:1121-1166 | some fresh ping still moves a master if and only if two masters share an epoch |
| `SlotBitmap.SetBit` | redis/src/cluster.c:3814-3819 | exactly that bit is set in the bitmap |
| `SlotBitmap.ClearBit` | redis/src/cluster.c:3821-3825 | exactly that bit is cleared |
| `SlotTable.Table.constructor` | redis/src/cluster.c:502 | a table without owners satisfies the mirror: slot owner, bitmap and slot count agree |
| `SlotTable.Table.NodeSetSlotBit` | redis/src/cluster.c:3845-3868 | bit and count of one node change together, no other node does |
| `SlotTable.Table.NodeClearSlotBit` | redis/src/cluster.c:3870-3875 | the same for clearing |
| `SlotTable.Table.NodeGetSlotBit` | redis/src/cluster.c:3878-3880 | the bit is set if and only if the table names that node as owner |
| `SlotTable.Table.AddSlot` | redis/src/cluster.c:3886-3891 | an unassigned slot gets the owner, an assigned one is refused; the mirror holds |
| `SlotTable.Table.DelSlot` | redis/src/cluster.c:3896-3903 | the slot becomes unassigned, the mirror holds, and the assertion inside never fires |
| `SlotTable.Table.DelNodeSlots` | redis/src/cluster.c:3907-3917 | exactly the node's slots become unassigned and their number is returned |
| `SlotTable.Table.DelNode` | redis/src/cluster.c:995-1021 | the node and its slots go away, with every migration from and to it |
| `SlotTable.Table.FailoverReplaceYourMaster` | redis/src/cluster.c:3096-3112 | all slots of the old master pass to the replica, and no other slot changes |
| `SlotTable.Table.RebindSlot` | redis/src/cluster.c:1665-1700 | one claimed slot is rebound exactly when the claim is newer and the slot is not being imported |
| `SlotTable.Table.UpdateSlotsConfigWith` | redis/src/cluster.c:1635-1740 | the owners after a claim, the demotion of a master that lost its last slot, and the slots whose keys must go |
| `SlotTable.Table.ProcessClaim` | redis/src/cluster.c:2048-2075 | skipping the update when the bitmaps agree loses nothing: owners, demotion and slots to clean are those of the full update |
| `SlotTable.Table.LearnEpoch` | redis/src/cluster.c:1836-1840 | the epoch of the sender is merged upwards, owners stay |
| `SlotTable.TallyCounts` | redis/src/cluster.c:1640-1700 | the counters of the loop are the sizes of the sets of claimed, moved and lost slots |
| `SlotClaims.ClaimNeverLowersEpoch` | redis/src/cluster.c:1665-1700 | no claim lowers the epoch of a slot's owner or unassigns a slot |
| `SlotClaims.SlotClaimsConverge` | redis/src/cluster.c:1635-1705 | claims of masters with distinct epochs, in any order and with repeats, leave each free slot that is not imported with its greatest-epoch claimant |
| `SlotClaims.ImportedSlotStays` | redis/src/cluster.c:1665-1675 | an imported slot keeps its owner, whoever claims it |
| `SlotClaims.OrderMattersIffContested` | redis/src/cluster.c:1635-1705 | from any table, all orders of the claims agree on a slot if and only if its owner did not move on without it to an epoch at or above every claimant, one of which is newer than the epoch known before |
| `SlotClaims.OrderDoesNotMatter` | redis/src/cluster.c:1635-1705 | two nodes without owners that hear the same claims in different orders agree on every slot |
| `SlotClaims.ProcessClaim` | redis/src/cluster.c:1836-1840 | the table updated in place follows the claim step that convergence is proved about |
| `SlotRanges.RunsAreMaximal` | redis/src/cluster.c:4206-4227 | the printed ranges are exactly the maximal runs of the node's slots |
| `SlotRanges.NodeRanges` | redis/src/cluster.c:4206-4227 | the scan of one node's bitmap gives its runs |
| `SlotRanges.GenNodesSlotsInfo` | redis/src/cluster.c:4250-4279 | the single scan over all slots gives every unfiltered node the same ranges as its own scan |
| `SlotRanges.LoadNodeRanges` | redis/src/cluster.c:247-292 | loading fails exactly on an out-of-range slot; otherwise the unassigned slots covered get the owner |
| `SlotRanges.PrintLoadRoundTrip` | redis/src/cluster.c:247-292 | printing all nodes and loading the result into an empty table restores every owner |
| `AofBuffer.RewriteBuffer.Size` | redis/src/aof.c:79-92 | the number of bytes waiting in all blocks |
| `AofBuffer.RewriteBuffer.Append` | redis/src/aof.c:125-171 | the contents grow by exactly the bytes given, over any number of blocks |
| `AofBuffer.RewriteBuffer.ChildWriteDiffData` | redis/src/aof.c:95-122 | bytes leave from the front, each once, however short the writes; all of them if every call takes its block, or if every call takes something and there are enough; none after the stop request |
| `AofBuffer.RewriteBuffer.WriteTo` | redis/src/aof.c:176-196 | the full count if every call takes its whole block, with the whole contents written; -1 exactly when some call does not |
| `AofBuffer.EnoughTakesAll` | redis/src/aof.c:176-196 | calls that take at least what any block holds take everything |
| `AofFlush.AppendOnlyFile.Write` | redis/src/aof.c:322-339 | partial writes are resumed; the result is what reached the file, -1 if nothing did |
| `AofFlush.AppendOnlyFile.FlushAppendOnlyFile` | redis/src/aof.c:360-517 | postponing, short writes, truncation and exit, as one function of the state and the environment |
| `AofFlush.FlushKeepsBytes` | redis/src/aof.c:416-517 | one flush keeps file plus buffer, and exits only under the always policy |
| `AofFlush.WritesWhileThereIsRoom` | redis/src/aof.c:322-339 | the write loop resumes after short and interrupted writes: it gets all data onto the disk, or all there is room for before a call fails |
| `AofFlush.FlushWrites` | redis/src/aof.c:416-517 | a flush that may not wait writes the whole buffer if there is room; otherwise it reports, or exits under the always policy |
| `AofFlush.FlushWaits` | redis/src/aof.c:376-404 | a flush that waits changes nothing but the time it has waited since |
| `AofFlush.FlushAccounting` | redis/src/aof.c:322-339 | over any run of feeds and flushes without the always policy, file plus buffer is all bytes fed and the known size is the file's |
| `AofRewrite.StepKeepsInv` | redis/src/aof.c:95-196 | every step keeps each byte fed since the fork in exactly one of child, pipe and buffer, and the file replayable |
| `AofRewrite.SwitchIsCompleteIffPipeDrained` | redis/src/aof.c:1861-1972 | the new file stands for everything executed if and only if the child left nothing in the pipe |
| `AofRewrite.NothingLostAcrossRewrites` | redis/src/aof.c:1603-1701 | in every interleaving of writes, flushes, rewrites, failures and switches, the file plus buffer replays to the whole log while the file is on |
| `AofRewrite.SwitchedFileIsSnapshotPlusDiff` | redis/src/aof.c:1954-1972 | the new file is the snapshot followed by what was fed since the fork, so the old buffer may be dropped |
| `AofRewrite.SwitchPutsLogInForce` | redis/src/aof.c:1974-1979 | after a successful switch the file is on and replays to everything executed, and stays so in every run until it is turned off |
| `AofRewrite.ModeAfter` | redis/src/aof.c:1974-1979 | exactly which steps turn the file on and off |
| `AofRewrite.FeedIsLogged` | redis/src/aof.c:668-676 | a write makes file plus buffer longer by exactly its bytes while the file is on, and the rewrite buffer while a child runs |
| `AofRewrite.RewriteCanComplete` | redis/src/aof.c:1603-1979 | from every state without a child a rewrite can be carried through all its steps, and the new file is the snapshot followed by what was fed meanwhile |
| `AofRewrite.RunKeepsTalking` | redis/src/aof.c:1601-1698 | in every run a child asks and is answered at most once, and the parent stops sending exactly from its answer on |
| `AofRewrite.FlushReachesFile` | redis/src/aof.c:416-517 | a flush with room that may not wait empties the buffer into the file and leaves the rewrite alone |
| `AofRewrite.StopWritesAll` | redis/src/aof.c:236-253 | turning the file off writes the buffer without waiting and ends the rewrite |
| `AofRewrite.SendDiff` | redis/src/aof.c:95-122 | the block list carries out the pipe-write step of the protocol |
| `AofRewrite.ReadDiffFromParent` | redis/src/aof.c:1439-1449 | reading until there is no data takes the whole pipe, however small the reads, so the child finishes with nothing left behind |
| `AofRewrite.AppendRest` | redis/src/aof.c:1861-1877 | it succeeds exactly when every call takes its whole block, and then gives the file that is switched to |
| `AofLog.CatAppendOnlyGenericCommand` | redis/src/aof.c:552-575 | a command is appended in its encoding, length-prefixed for every argument |
| `AofLog.LoadAppendOnlyFile` | redis/src/aof.c:807-916 | the loader as a function of the file: commands run, commands queued in an open transaction, truncation offset or error |
| `AofLog.CommandReadsBack` | redis/src/aof.c:807-868 | an encoded command followed by anything is read back, for arbitrary bytes |
| `AofLog.CommandCutShort` | redis/src/aof.c:807-868 | a command cut anywhere inside is a short read, never a format error or a complete command |
| `AofLog.AfterMeaning` | redis/src/aof.c:879-916 | the loader has run exactly the commands before an open transaction and queued the rest; its offsets are the end of the last whole command and the start of the last MULTI |
| `AofLog.LogRoundTrip` | redis/src/aof.c:552-575 | loading the encodings of any commands runs exactly these; an unfinished transaction is not run and the file is cut in front of its last MULTI |
| `AofLog.CutLogTruncates` | redis/src/aof.c:928-960 | a cut inside a command runs the commands before an open transaction and truncates right behind the last whole command |
| `AofLog.DamageIsNotCut` | redis/src/aof.c:825-846 | bytes behind whole commands that start no command are a format error, never a file to truncate |
| `AofLog.UnknownIsFatal` | redis/src/aof.c:869-877 | a command the server does not know ends the load |
| `AofLog.NumberIsRead` | redis/src/aof.c:830 | a count or length is read through blanks, a sign and digits, up to the first other byte |
| `AofLog.BareStar` | redis/src/aof.c:829 | a star with nothing behind it is a short file if the file ends in that line, and unreadable otherwise |
| `AofLog.RepairedLogLoadsIff` | redis/src/aof.c:928-960 | for a cut at any byte, the truncated file loads cleanly if and only if what is left ends outside a transaction |
| `AofLog.RestartsSettle` | redis/src/aof.c:905-914 | enough restarts leave exactly the commands that were run |
| `AofLog.TornTransactionRevives` | redis/src/aof.c:879-890 | a complete transaction appended behind a torn one makes a later start run the torn one as well |
| `AofLog.NestedMultiLeavesMulti` | redis/src/aof.c:879-914 | a file of two MULTI keeps one of them after its repair |
| `AofLog.CutInsideMultiLeavesMulti` | redis/src/aof.c:879-916 | a concrete file whose repair leaves an open transaction |
| `AofReplay.Feeder.FeedAppendOnlyFile` | redis/src/aof.c:613-676 | SELECT is written when the database differs from the last one, into both streams |
| `AofReplay.Feeder.Propagate` | redis/src/server.c:3583-3584 | an executed write is fed unless the file is off; the buffers follow the streams |
| `AofReplay.StepKeepsInv` | redis/src/aof.c:1795-1799 | resetting the selected database at a rewrite, and feeding nothing while the file is off, keeps both streams consistent with one shared variable |
| `AofReplay.ReplayRunsInRightDb` | redis/src/aof.c:613-624 | over every run both streams replay each command in the database it was fed for, the diff from any start |
| `AofReplay.StepFeeds` | redis/src/aof.c:668-676 | which commands each stream stands for after every step, and when the file is on or off |
| `AofReplay.RewriteReplaysAll` | redis/src/aof.c:1795-1799 | in any run, a file switched to replays its snapshot and then every command fed since the fork, in its database |
| `AofReplay.LoadedLogRunsInRightDb` | redis/src/aof.c:668-676 | the same for the bytes on disk and what the loader runs of them, up to an unfinished transaction |
| `Acl.User.SetUserCommandBit` | redis/src/acl.c:397-410 | one bit changes; clearing also drops the all-commands flag; an id out of range changes nothing |
| `Acl.User.SetUserCommandBitsForCategory` | redis/src/acl.c:414-429 | all commands of the category except modules' get the value and lose their subcommands |
| `Acl.User.AddAllowedSubcommand` | redis/src/acl.c:712-739 | the subcommand is listed once, in any letter case |
| `Acl.LowerIgnoresCase` | redis/src/acl.c:728 | two words are the same exactly when they differ at most in the case of ASCII letters |
| `Acl.User.SetUser` | redis/src/acl.c:825-1014 | a rule is accepted exactly when its category or command exists, and changes bitmap, flag and lists as the function on values does |
| `Acl.EveryUserKeepsInv` | redis/src/acl.c:825-1014 | after any rules, bits of no command equal the reserved bit, and subcommands belong to known commands that are off |
| `Acl.EveryUserKeepsFlag` | redis/src/acl.c:397-410 | after any rules the all-commands flag is set only if every bit is |
| `Acl.FlagIff` | redis/src/acl.c:856-870 | the flag is set if and only if some rule allowed all commands and no later one cleared a bit |
| `Acl.User.CheckCommandPerm` | redis/src/acl.c:1179-1211 | the check passes on the flag, the bit, or a listed subcommand in any letter case |
| `Acl.RulesMeanPermissions` | redis/src/acl.c:825-1211 | after any rules a command passes the check if and only if some rule allows it and no later rule takes it back |
| `Acl.WithCategoryBits` | redis/src/acl.c:414-429 | what a category rule does to every bit of the map |
| `AclPrinter.CountCategoryBitsForUser` | redis/src/acl.c:437-455 | the numbers of set and clear bits of a category |
| `AclPrinter.BestCategory` | redis/src/acl.c:511-536 | the category with fewest differences, then most in common, among the useful unused ones; -1 only if there is none |
| `AclPrinter.PickCategories` | redis/src/acl.c:511-555 | the greedy loop ends, its rules rebuild the scratch user, and it never lengthens the description |
| `AclPrinter.CategoryGains` | redis/src/acl.c:519-536 | a chosen category fixes more commands than it breaks |
| `AclPrinter.FixesComplete` | redis/src/acl.c:557-584 | single-command and subcommand rules complete any start with the right reserved bit |
| `AclPrinter.FixSingles` | redis/src/acl.c:557-584 | the final pass emits these rules and brings the scratch bitmap to the user's |
| `AclPrinter.DescribeUserCommandRules` | redis/src/acl.c:464-603 | a fresh user given the printed rules has the same bitmap and subcommand lists; the panic is not reached; never more rules than naming commands one by one |
| `AclPrinter.PrintedPermitsTheSame` | redis/src/acl.c:464-603 | printed rules permit the same commands and subcommands as the rules that were given |
| `Blocked.UnblockKeepsMirror` | redis/src/blocked.c:673-692 | unblocking keeps client and key indexes mirrored and no queue empty |
| `Blocked.BlockKeepsMirror` | redis/src/blocked.c:626-669 | blocking keeps them mirrored, each client once per queue |
| `Blocked.UnblockKeepsCounts` | redis/src/blocked.c:174-208 | the per-type counters stay the numbers of blocked clients |
| `Blocked.LoopProgress` | redis/src/blocked.c:262-319 | serving unblocks somebody or makes no key ready |
| `BlockedFair.LoopKeepsValid` | redis/src/blocked.c:262-319 | serving a key keeps indexes, counters and the duplicate-free ready queue |
| `BlockedFair.RefusedTurnKeepsObjects` | redis/src/blocked.c:290-301 | a client whose target has the wrong type gets an error and the element goes back to the end it came from |
| `BlockedFair.FairService` | redis/src/blocked.c:262-319 | the clients replied to are a prefix, in queue order, of those of the right type; the queue is the rest followed by the others in order |
| `BlockedFair.DrainKeepsValid` | redis/src/blocked.c:544-597 | the nested drain ends with nothing ready and all invariants intact |
| `BlockedRuns.SignalReaches` | redis/src/blocked.c:726-762 | the quick returns never drop a key that somebody of that type waits on |
| `BlockedRuns.SignalNeedsWaiter` | redis/src/blocked.c:726-762 | a key is queued only if it is not yet ready, a client waits on it and one of that type is blocked |
| `BlockedRuns.ServedIsCalm` | redis/src/blocked.c:262-319 | after serving a key nobody is left who could have been served |
| `BlockedRuns.DrainServesEveryone` | redis/src/blocked.c:544-597 | after the drain no client waits on a key that holds what it wants |
| `BlockedRuns.HandConserves` | redis/src/t_list.c:851-902 | a popped element goes to a reply, to the target list, or back |
| `BlockedRuns.DrainConserves` | redis/src/blocked.c:544-597 | however long the drain, no element is lost or made up |
| `BlockedRuns.StoreKeepsGoodIff` | redis/src/db.c:258-267 | storing an object loses no wake-up if and only if it does not overwrite an unqueued key with what a client waits for |
| `BlockedRuns.OverwriteLosesWakeup` | redis/src/db.c:224-245 | a run in which a client sleeps on a list that holds an element |
| `BlockedRuns.StepKeepsGood` | redis/src/t_list.c:905-949 | every command, timeout and drain keeps the invariants and loses no wake-up |
| `BlockedRuns.EveryRunIsGood` | redis/src/blocked.c:626-762 | the same over every run |
| `BlockedRuns.NobodyStarves` | redis/src/blocked.c:544-597 | in any run, once ready keys are served nobody waits on a key that holds what it waits for |
| `BlockedMoves.PopTakes` | redis/src/t_list.c:905-949 | a blocking pop gives the client the element at the asked end of the first key with data, and only that key changes |
| `BlockedMoves.PopRefused` | redis/src/t_list.c:913-917 | a key of the wrong type in front of the data refuses the pop and nothing is taken |
| `BlockedMoves.PopBlocks` | redis/src/t_list.c:940-949 | without data the client waits at the tail of the queue of every key it named |
| `BlockedMoves.PushEnters` | redis/src/t_list.c:712-729 | a push adds its element at the asked end |
| `BlockedMoves.ZAddEnters` | redis/src/t_zset.c:1428-1434 | a new member stands at its rank, the others keep their order |
| `BlockedMoves.MoveTakes` | redis/src/t_list.c:752-793 | a move takes from one end and adds at the asked end of the target, also when that is the same list |
| `BlockedMoves.MoveElse` | redis/src/t_list.c:962-982 | otherwise nothing moves and the client waits or is told |
| `BlockedMoves.TurnGives` | redis/src/blocked.c:280-311 | service gives a client the element at the end it asked for |
| `BlockedMoves.TurnMoves` | redis/src/t_list.c:851-902 | service of a move puts the element at the asked end of the target |
| `BlockedMoves.StepConserves` | redis/src/blocked.c:544-597 | every step keeps the number of copies of every element in database and replies, but for what a write brings or deletes |
| `BlockedMoves.RunConserves` | redis/src/t_list.c:905-982 | over every run, what the database holds and clients got is what writes brought |
| `BlockedServer.Server.BlockForKeys` | redis/src/blocked.c:626-669 | the client is queued once under each distinct key |
| `BlockedServer.Server.UnblockClientWaitingData` | redis/src/blocked.c:673-707 | the client leaves every queue, empty queues go, and the assertions hold |
| `BlockedServer.Server.UnblockClient` | redis/src/blocked.c:174-208 | queues, wait record and counter change together |
| `BlockedServer.Server.SignalKeyAsReady` | redis/src/blocked.c:726-762 | the key is queued once, and only if somebody may wait for it |
| `BlockedServer.Server.DbAdd` | redis/src/db.c:192-199 | a new key is stored and signalled |
| `BlockedServer.Server.MoveHandlePush` | redis/src/t_list.c:712-729 | the element is pushed to the target, created and signalled if missing |
| `BlockedServer.Server.ServeClientBlockedOnList` | redis/src/t_list.c:851-902 | false exactly when the target has the wrong type; otherwise reply or move |
| `BlockedServer.Server.ServeClientsBlockedOnListKey` | redis/src/blocked.c:262-319 | the loop does the turns of the model and never reads the head of an emptied queue |
| `BlockedServer.Server.ServeClientsBlockedOnSortedSetKey` | redis/src/blocked.c:324-368 | the same for sorted sets |
| `BlockedServer.Server.HandleClientsBlockedOnKeys` | redis/src/blocked.c:544-597 | both loops end; the result is the drained state |
| `BlockedServer.Server.BlockingPopGeneric` | redis/src/t_list.c:905-949 | the loop over the keys does the pop step that ends and conservation are proved about: pop, refuse, or block on all keys |
| `BlockedServer.Server.MoveGeneric` | redis/src/t_list.c:752-793 | moving in place is the move step, with an emptied list deleted |
| `BlockedServer.Server.BlockingMoveGeneric` | redis/src/t_list.c:962-982 | the same, or blocking on a missing list |
| `Popcount.OnesCountsPositions` | redis/src/bitops.c:40-92 | the sum over bytes is the number of positions whose bit is set |
| `Popcount.WordCounts` | redis/src/bitops.c:66-79 | the parallel steps count every byte of a word by itself |
| `Popcount.SevenAddUp` | redis/src/bitops.c:80-86 | up to seven words of byte counts, added as 32-bit words, sum up without a carry between bytes |
| `Popcount.MultiplySums` | redis/src/bitops.c:80-86 | the multiplication brings the sum of the four bytes to the top byte |
| `Popcount.CountBlock` | redis/src/bitops.c:54-87 | the 28-byte block adds exactly its set bits |
| `Popcount.Popcount` | redis/src/bitops.c:40-92 | the number of set bits, for every string and start address |
| `Bitpos.WordBit` | redis/src/bitops.c:141-177 | bit by bit, the loaded word is the next 64 bits of the zero-padded string |
| `Bitpos.StopsHere` | redis/src/bitops.c:119-146 | where skipping stops, the wanted bit is in the next word unless a one is wanted and only zeros are left |
| `Bitpos.Walk` | redis/src/bitops.c:176-184 | shifting the mask finds the first bit of the wanted value before the mask is zero, so the panic is not reached |
| `Bitpos.Scan` | redis/src/bitops.c:168-185 | the position found is the least one in the whole string |
| `Bitpos.FirstBit` | redis/src/bitops.c:101-186 | the least position with the wanted value in the zero-padded string; -1 if and only if a one is wanted and there is none |
| `Bitop.CombinedBits` | redis/src/bitops.c:722-748 | AND means all strings have the bit, OR some, XOR an odd number, NOT the opposite |
| `Bitop.VotesCount` | redis/src/bitops.c:722-748 | all strings have the bit exactly when the votes are as many as the strings, some has it exactly when there is a vote |
| `Bitop.OpBytewise` | redis/src/bitops.c:671-718 | the word operations act on each byte by itself |
| `Bitop.EarlyExit` | redis/src/bitops.c:727-744 | leaving the inner loop early changes nothing |
| `Bitop.Lengths` | redis/src/bitops.c:624-655 | the least and the greatest of the lengths, each that of some string; a missing key has length zero |
| `Bitop.FastPath` | redis/src/bitops.c:664-719 | whole blocks of four words equal the byte-by-byte result |
| `Bitop.CombineByte` | redis/src/bitops.c:722-748 | one byte of the result, with early exits |
| `Bitop.Compute` | redis/src/bitops.c:624-757 | the result is as long as the longest string and no longer, empty if there is none, and every byte is the strings combined, each zero-padded |
| `Bitfield.GetUnsignedBitfield` | redis/src/bitops.c:229-241 | the number made of the field's bits, first bit most significant |
| `Bitfield.GetSignedBitfield` | redis/src/bitops.c:243-263 | the same in two's complement, up to 64 bits |
| `Bitfield.SetUnsignedBitfield` | redis/src/bitops.c:209-222 | the field's bits become those of the value, no other bit changes |
| `Bitfield.SetSignedBitfield` | redis/src/bitops.c:224-227 | the same for a negative value, through its 64-bit pattern |
| `Bitfield.ReadBack` | redis/src/bitops.c:209-241 | reading back gives the value modulo two to the width |
| `Bitfield.ResidueIsRight` | redis/src/bitops.c:311-322 | the wrapped value is in range and congruent, and the value itself when that fits |
| `Bitfield.ClampIsNearest` | redis/src/bitops.c:293-355 | saturation gives the nearest number of the range |
| `Bitfield.UnsignedIncrementExact` | redis/src/bitops.c:288-323 | the unsigned check gives the true sum, its residue, its clamp or a refusal |
| `Bitfield.SignedIncrementExact` | redis/src/bitops.c:325-377 | the signed check does, for every width up to 64 |
| `Bitfield.SignedSetExactIff` | redis/src/bitops.c:325-377 | SET on a signed field is exact if and only if it does not saturate a value whose distance to the maximum leaves 64 bits |
| `Bitfield.UnsignedSetExactIff` | redis/src/bitops.c:288-323 | SET on an unsigned field is exact if and only if it does not saturate a negative value |
| `Bitfield.SignedSetSaturatesWrong` | redis/src/bitops.c:329-345 | the least 64-bit number saturates to 127 in eight bits instead of -128 |
| `Bitfield.UnsignedSetSaturatesWrong` | redis/src/bitops.c:288-302 | -1 saturates to 255 in eight bits instead of 0 |
| `Bitfield.IncrBy` | redis/src/bitops.c:1054-1113 | reply and field are the sum, residue or clamp; a refusal changes nothing; no bit outside the field changes |
| `Bitfield.Set` | redis/src/bitops.c:1054-1113 | the old value is returned, refused exactly when FAIL meets a value that does not fit; no bit outside the field changes |
| `Bitfield.Get` | redis/src/bitops.c:1115-1147 | the field of the zero-padded string at any offset, through a copy of nine bytes |

## Left out

- The PHP scripts and views of the repository: input and output without logic.
- Sockets, links, the event loop, background threads and child processes as such; messages may be lost and delayed, not duplicated.
- Cluster handshakes, gossip, address discovery, replica migration, manual failover, hard reset, and slots assigned to replicas by hand.
- Wrap-around of 64-bit epochs; epochs are natural numbers.
- Votes surviving a crash: the election runs without restarts, over a fixed set of masters.
- A node that is a replica of no master: the slot update dereferences its master, so the master is taken to be known.
- SlotRanges.LoadNodeRanges: takes ranges as numbers, not as text, and leaves out importing and migrating marks.
- AofRewrite.ReadDiffFromParent: relies on the kernel that a read on a non-blocking pipe reports no data only when the pipe is empty.
- The snapshot a rewrite child writes is an arbitrary string that stands for the log at the fork; RDB preambles are not modelled.
- Durability of fsync, and a failing fstat after a switch.
- AofReplay.Feeder.FeedAppendOnlyFile: EXPIRE and SET options are rewritten to absolute times before a command is fed; the fed command is what is written.
- AofLog.LoadAppendOnlyFile: argument counts are below two to the 31 and lengths below two to the 63; what the C library does with larger digits is not modelled. DISCARD and WATCH, which are never written to the log, are ordinary commands.
- Acl.User.SetUser: rules are values rather than text; passwords, keys and channels are not modelled, and the bitmap is an array of booleans rather than 64-bit words.
- AclPrinter.DescribeUserCommandRules: does not promise the all-commands flag, which follows the last rules given; the permissions are the same.
- Acl.User.CheckCommandPerm: commands that need no authentication and the check of keys are not modelled.
- Blocking on streams and by modules; such clients stay in the queues and are passed over.
- Timeouts as clocks; a client may leave at any time.
- BlockedRuns.StepKeepsGood: a sorted set is a sequence ordered by score; the rank a score gives a new member is an argument, scores themselves are not modelled.
- BlockedServer.Server.ServeClientsBlockedOnSortedSetKey: pops from one end of that sequence, scores are not part of the reply.
- Popcount.Popcount: the table of bit counts is the function it tabulates; words are loaded little-endian.
- Bitfield.IncrBy: the string has been grown to hold the field, as the command does before it runs its operations.
- The parsing of BITFIELD, BITOP and blocking commands.
