# Verified models of five self-contained cores of the game server

The project models, in Dafny, the parts of the repository whose behaviour is decided by
their own code alone, and proves what they keep over whole runs.

* **Pool allocator** (`BinMap`, `MtPool*`).  `MtPool` is a machine: any number of threads,
  each with a program counter; one step is one access to data another thread can reach, one
  iteration of a list walk, or one counter update, so every interleaving of the calls is a
  schedule of steps.  A block header is a union of a link and an owner.  `MtPoolInv` is the
  invariant, `MtPoolMoves`, `MtPoolRefill`, `MtPoolChunk`, `MtPoolCarve`, `MtPoolUse`,
  `MtPoolReturn` and `MtPoolIds` show that each step keeps it, `MtPoolRuns` lifts this to all
  runs, and `MtPoolSafety` and `MtPoolAccess` state what follows on the machine alone.
  `MtPoolCode` is the code in its own form, a class whose routines update the fields in place;
  every statement group is proved to be a step of the machine.
* **Command line scanner and argp tables** (`GetoptSpec`, `GetoptMask`, `GetoptSpell`,
  `GetoptScan`, `Getopt`; `ArgpSpec`, `ArgpTree`, `ArgpRoute`, `ArgpColons`, `ArgpNames`, `Argp`;
  `ArgpRun` puts the two together).  The reference is one left-to-right scan of the original
  vector; the code permutes the vector in place and resumes from fields, and is proved to
  report the same.  `GetoptMask` says which elements the scan takes, `GetoptSpell` that its reports
  spell them back.  The argp tables are filled in arrays of the measured sizes; the modules beside
  `ArgpSpec` say what they keep of the tree of parsers.
* **Square spiral search** (`Ring`, `Spiral`, `SpiralRun`, `Scene`), in wrapping 32-bit
  arithmetic, on a grid of blocked cells.
* **Block ciphers and the in-place buffer driver** (`Zes`, `Rc5`, `Rc5Key`, `MiniCrypt`,
  `EncDec`).  The substitution table is a parameter.  `ZesLaws`, `Rc5Laws` and `CipherLaws` say
  which ciphers these are, by single bits and by recurrences.
* **Base64 with folded lines** (`Base64Spec`, `Base64Decode`, `Base64Laws`, `Base64`).

Where the code and its comments differ, the model follows the code: an option element may
start with `/` as well as `-` (zhengtu/baseLib/getopt.c:441), the ordering prefix of the option
string is skipped only by the call that initializes the scan (325-357), `calc_sizes` reserves no
place for the prefix `+` (1332-1333, 1396), the value packed for an option of the 128th or a later
group does not lead to its group (1272-1274), a letter equal to the ordering prefix always leads to
the first group (1330-1334), a letter that the letter ':' follows is read as taking an argument
(1241-1252), a headroom large enough to wrap the surplus keeps blocks from going back
(zhengtu/include/baseLib/gccmt_allocator.h:435-440), a search whose parameter `clockwise`
is 1 runs anti-clockwise (zhengtu/libscenesserver/Scene.cpp:2025-2034), and the two passes of each base64
routine agree only under the conditions proved below.

Parameters of the model: the allocator's tuning, half the word range, the addresses
`operator new` returns, and the size classes must be such that the 16-bit table is exact and one
block of the largest bin fits a chunk; the size of the command line and the option tables; whether
POSIXLY_CORRECT is set; the random start direction and rotation of a search; the substitution
table and the key schedule.

## Model

| member | source | states |
|---|---|---|
| BinMap.WhichIsSmallestFit | zhengtu/include/baseLib/gccmt_allocator.h:307-308 | the bin of a request is the smallest size class that holds it |
| BinMap.BinmapExactIff | zhengtu/include/baseLib/gccmt_allocator.h:494-509 | the 16-bit table sends every size up to the limit to its smallest fitting bin if and only if the limit is at most one past the largest class 16 bits can hold |
| BinMap.BinmapWrongAt32770 | zhengtu/include/baseLib/gccmt_allocator.h:499-508 | with smallest bin 8 the entry for 32770 bytes is wrong |
| BinMap.BuildBinmap | zhengtu/include/baseLib/gccmt_allocator.h:484-509 | counts the bins and fills the table; within the limit every entry is the smallest fitting bin and below the bin count |
| BinMap.FillBinmap | zhengtu/include/baseLib/gccmt_allocator.h:499-509 | the filling loop leaves in every entry the 16-bit register of that iteration |
| MtPoolBounds.BlocksApart | zhengtu/include/baseLib/gccmt_allocator.h:309-345 | two blocks of the pool never overlap, header and payload together, in the same chunk or in different ones |
| MtPoolBounds.SurplusBounds | zhengtu/include/baseLib/gccmt_allocator.h:435-447 | when the decision to return blocks is taken, even where the surplus wraps, the headroom is not 0 and between 1 and all of the thread's blocks go back |
| MtPoolBounds.ReturnExact | zhengtu/include/baseLib/gccmt_allocator.h:435-447 | the decision and the amount are right if and only if the surplus free * headroom - used is below half the word range: then blocks go back exactly when it exceeds both 100 * (bins - bin) * headroom and free, and used <= headroom * (free - removed) < used + headroom, so the fewest blocks that cover the used ones stay |
| MtPoolBounds.HeadroomOverflows | zhengtu/include/baseLib/gccmt_allocator.h:435-440 | with a headroom of 4294967 and 501 free blocks the surplus wraps and nothing goes back |
| MtPoolMoves.KeepAlloc | zhengtu/include/baseLib/gccmt_allocator.h:299-307 | choosing the bin and looking at the own list keeps the invariant |
| MtPoolMoves.KeepLockRefill | zhengtu/include/baseLib/gccmt_allocator.h:326 | taking the bin's lock to refill keeps the invariant |
| MtPoolMoves.KeepRefillEmpty | zhengtu/include/baseLib/gccmt_allocator.h:327-331 | finding the global list empty and letting the lock go keeps the invariant |
| MtPoolRefill.KeepRefillAll | zhengtu/include/baseLib/gccmt_allocator.h:349-359 | taking the whole global list keeps the invariant |
| MtPoolRefill.KeepRefillSome | zhengtu/include/baseLib/gccmt_allocator.h:349-364 | starting to cut a chunk's worth off the global list keeps the invariant |
| MtPoolMoves.KeepGrabWalk | zhengtu/include/baseLib/gccmt_allocator.h:365-366 | one step of the walk along the global list keeps the invariant |
| MtPoolRefill.KeepGrabEnd | zhengtu/include/baseLib/gccmt_allocator.h:367-370 | cutting the list at the last block of the walk and unlocking keeps the invariant |
| MtPoolChunk.KeepChunk | zhengtu/include/baseLib/gccmt_allocator.h:333-338 | a new chunk, whose blocks are not linked yet, keeps the invariant |
| MtPoolCarve.KeepCarveWalk | zhengtu/include/baseLib/gccmt_allocator.h:339-344 | linking one more block of the chunk keeps the invariant |
| MtPoolCarve.KeepCarveEnd | zhengtu/include/baseLib/gccmt_allocator.h:345 | ending the chain of the chunk keeps the invariant |
| MtPoolUse.KeepPop | zhengtu/include/baseLib/gccmt_allocator.h:391-397 | popping the head and writing the owner over its link keeps the invariant |
| MtPoolUse.KeepCount | zhengtu/include/baseLib/gccmt_allocator.h:398-403 | counting the popped block and handing it out keeps the invariant |
| MtPoolUse.KeepFree | zhengtu/include/baseLib/gccmt_allocator.h:418-443 | entering a release and deciding about the surplus keeps the invariant |
| MtPoolMoves.KeepDetachWalk | zhengtu/include/baseLib/gccmt_allocator.h:447-448 | one step of the walk to the end of the returned batch keeps the invariant |
| MtPoolReturn.KeepDetachEnd | zhengtu/include/baseLib/gccmt_allocator.h:449-450 | detaching the batch, which is then in transit, keeps the invariant |
| MtPoolMoves.KeepLockReturn | zhengtu/include/baseLib/gccmt_allocator.h:452 | taking the bin's lock to return a batch keeps the invariant |
| MtPoolReturn.KeepSplice | zhengtu/include/baseLib/gccmt_allocator.h:453-456 | splicing the batch in front of the global list keeps the invariant |
| MtPoolUse.KeepUncount | zhengtu/include/baseLib/gccmt_allocator.h:461 | the unlocked decrement of the owner's counter keeps the invariant |
| MtPoolUse.KeepPush | zhengtu/include/baseLib/gccmt_allocator.h:463-466 | overwriting the owner with a link and pushing the block keeps the invariant |
| MtPoolIds.KeepTakeId | zhengtu/include/baseLib/gccmt_allocator.h:605-620 | taking a thread id from the list keeps the invariant |
| MtPoolIds.KeepExit | zhengtu/include/baseLib/gccmt_allocator.h:633-643 | returning the id of an ending thread keeps the invariant |
| MtPoolRuns.StartInv | zhengtu/include/baseLib/gccmt_allocator.h:477-582 | the state the initializer leaves satisfies the invariant |
| MtPoolRuns.StepKeeps | zhengtu/include/baseLib/gccmt_allocator.h:271-475 | every step of every thread keeps the invariant |
| MtPoolRuns.RunKeeps | zhengtu/include/baseLib/gccmt_allocator.h:271-643 | every state of every run of any number of threads, under every interleaving, satisfies the invariant |
| MtPoolSafety.LiveBlocksApart | zhengtu/include/baseLib/gccmt_allocator.h:271-404 | in every run the outstanding blocks are pairwise disjoint, lie inside a chunk after their header, and are as long as requested |
| MtPoolSafety.EveryBlockHasOnePlace | zhengtu/include/baseLib/gccmt_allocator.h:307-467 | in every state of every run the blocks of all chunks, each cut for its bin, and nothing else, have a place, and one only: one list, one batch in transit, one thread's hand, or outstanding; lists are finite and without repetition |
| MtPoolSafety.FreeCountsList | zhengtu/include/baseLib/gccmt_allocator.h:335-466 | in every state, for every list nobody is rebuilding (list 0 included), the free counter is the length of the list, which ends in null, never repeats and holds no outstanding block |
| MtPoolSafety.UsedCountsHeld | zhengtu/include/baseLib/gccmt_allocator.h:398-461 | at quiescent points the used counter of a thread id is the number of outstanding blocks stamped with it, whichever threads released blocks |
| MtPoolSafety.BlocksConserved | zhengtu/include/baseLib/gccmt_allocator.h:331-466 | at quiescent points every block of every chunk, as it was cut for its bin, is outstanding or on exactly one list at exactly one position |
| MtPoolAccess.ReadsAreSafe | zhengtu/include/baseLib/gccmt_allocator.h:307-461 | no thread ever reads a link from a header that holds an owner, nor an owner from one that holds a link, and no walk runs off its list |
| MtPoolAccess.RefillAmount | zhengtu/include/baseLib/gccmt_allocator.h:349-369 | a refill gives a chunk's worth or the whole global list if that is less, at least 1, and takes exactly those from the global list |
| MtPoolAccess.ChunkAmount | zhengtu/include/baseLib/gccmt_allocator.h:309-335 | a new chunk gives as many blocks, header and payload, as fit it and no fewer, at least 1 |
| MtPoolAccess.ReturnAmount | zhengtu/include/baseLib/gccmt_allocator.h:435-450 | in every run a release returns blocks exactly when the plain-integer surplus exceeds the threshold and its list, and leaves the fewest that cover the used ones, as long as the surplus fits a signed word; beyond that still between 1 and all of its list; with headroom 0 it never divides |
| MtPoolAccess.IdsDistinct | zhengtu/include/baseLib/gccmt_allocator.h:595-628 | two threads never hold the same id |
| MtPoolAccess.IdsRecycled | zhengtu/include/baseLib/gccmt_allocator.h:605-643 | with no more threads than ids, a thread without one always finds one in the list |
| MtPoolAccess.SectionsExclusive | zhengtu/include/baseLib/gccmt_allocator.h:326-371 | at most one thread is inside the critical section of a bin |
| MtPoolAccess.NoDeadlock | zhengtu/include/baseLib/gccmt_allocator.h:326-456 | a thread inside a call can take its next step, or waits for memory, or waits for a lock whose holder can take its next step |
| MtPoolCode.Pool.constructor | zhengtu/include/baseLib/gccmt_allocator.h:477-582 | the initializer, as loops, leaves the start state of the machine: the ids linked in order from 1, all lists empty, all counters 0 |
| MtPoolCode.EmptyBins | zhengtu/include/baseLib/gccmt_allocator.h:548-574 | all list heads null and all counters 0, for every bin and thread id |
| MtPoolCode.ListIds | zhengtu/include/baseLib/gccmt_allocator.h:525-536 | the thread records form the list 1, 2, ..., up to the limit |
| MtPoolCode.Pool.GetThreadId | zhengtu/include/baseLib/gccmt_allocator.h:595-628 | a thread keeps its id or takes the first of the list; the result is not 0, and no list or counter changes |
| MtPoolCode.Pool.DestroyThreadKey | zhengtu/include/baseLib/gccmt_allocator.h:633-643 | the id becomes the first of the list and the thread has none; no list or counter changes |
| MtPoolCode.Pool.CarveChunk | zhengtu/include/baseLib/gccmt_allocator.h:333-345 | the carving loop is a sequence of machine steps that fills the own list |
| MtPoolCode.Pool.GrabBlocks | zhengtu/include/baseLib/gccmt_allocator.h:349-369 | the refill from the global list, with its walk, is a sequence of machine steps |
| MtPoolCode.Pool.ReturnBlocks | zhengtu/include/baseLib/gccmt_allocator.h:442-456 | the batch return, with its walk, is a sequence of machine steps |
| MtPoolCode.Pool.Allocate | zhengtu/include/baseLib/gccmt_allocator.h:271-404 | an allocation, run through, ends in a reachable state and hands out a block nobody held: the head of the thread's list if there is one, else of the refill, else of the new chunk; all free counters and the used counter are exactly those that follow |
| MtPoolCode.Pool.Deallocate | zhengtu/include/baseLib/gccmt_allocator.h:406-475 | a release by any thread, run through, ends in a reachable state in which the block heads the releasing thread's list; exactly the due number of blocks has moved from the front of that list to the front of the global one; the used counter of the id the block was stamped with, and no other, is one less |
| MtPoolCode.Pool.BetweenCalls | zhengtu/include/baseLib/gccmt_allocator.h:271-475 | after any sequence of calls: disjoint outstanding blocks, exact free counters, exact used counters |
| GetoptScan.Rotate | zhengtu/baseLib/getopt.c:268-316 | the in-place exchange turns first segment, second segment into second, first, keeps the order inside both, touches nothing else, and ends |
| Getopt.GetoptData.Exchange | zhengtu/baseLib/getopt.c:268-321 | after the exchange the indices describe the moved non-options |
| GetoptScan.SwapRuns | zhengtu/baseLib/getopt.c:290-311 | an inner loop swaps two runs of equal length element by element |
| GetoptSpec.FindLongMeans | zhengtu/baseLib/getopt.c:553-582 | the one-pass look-up finds the first exact name; else the first abbreviated one, unless a later match differs from it |
| GetoptSpec.SearchMeans | zhengtu/baseLib/getopt.c:553-579 | the same from any intermediate state of the search |
| GetoptSpec.DecodeProgress | zhengtu/baseLib/getopt.c:537-889 | one decoding step leaves fewer unread letters or finishes the element, and at most the next element with it |
| GetoptSpec.DecodeCode | zhengtu/baseLib/getopt.c:581-889 | -1 is never an option's code unless the caller's table says so |
| GetoptSpec.PartitionStable | zhengtu/baseLib/getopt.c:443-520 | the reference partition puts marked elements first and keeps the order within marked and within unmarked ones |
| GetoptMask.MaskMeans | zhengtu/baseLib/getopt.c:443-520 | an element is unmarked exactly when it is after the "--"; or, permuting, a non-option that no option consumed; or, requiring order, the first such non-option or after it |
| GetoptMask.OrderingMeans | zhengtu/baseLib/getopt.c:325-357 | the same by the option string and the environment: '-' in front leaves only what follows "--"; '+' in front, or POSIXLY_CORRECT without '-', requires order |
| GetoptMask.SpansTile | zhengtu/baseLib/getopt.c:443-889 | the vector is read end to end in stretches of one element or of an option and the argument it reports, up to the end or the element that stops the scan |
| GetoptSpell.ShortSpells | zhengtu/baseLib/getopt.c:686-889 | the unread text of a letter is the letter, then its attached argument or what stays unread; it is refused exactly when unknown or without its argument, with ':' or '?' as the option string asks; no, a required or an optional argument as the colons behind the letter ask |
| GetoptSpell.LongSpells | zhengtu/baseLib/getopt.c:581-684 | the unread text of a long option is a key without '=' that begins the row's name, then '=' and the attached argument if there is one; the argument is as the row asks; a wrong or missing one is refused with the row's value, an unclear name with 0 |
| GetoptSpell.NameOrLetter | zhengtu/baseLib/getopt.c:541-684 | two marks introduce a name; with long-only options one mark as well, unless a single known letter follows or no name begins so but a letter does; all else is letters |
| GetoptSpell.PrefixLetter | zhengtu/baseLib/getopt.c:325-357 | the ordering prefix is no letter for the call that begins the scan and one for the calls after it |
| GetoptSpell.ElementSpells | zhengtu/baseLib/getopt.c:541-889 | the reports of one option element, in order, spell the element after its opening mark back |
| GetoptSpell.ScanSpells | zhengtu/baseLib/getopt.c:443-889 | so do the reports of a whole scan, element by element; a non-option that is reported is reported as itself |
| Getopt.GetoptData.Initialize | zhengtu/baseLib/getopt.c:325-357 | the first call sets the indices and chooses the ordering from the option string and the environment |
| Getopt.GetoptData.SkipNonOptions | zhengtu/baseLib/getopt.c:454-471 | the permuting block moves processed options before skipped non-options and extends these |
| Getopt.GetoptData.SkipRest | zhengtu/baseLib/getopt.c:478-490 | "--" ends the scan: it counts as an option, all after it as non-options |
| Getopt.GetoptData.BeginElement | zhengtu/baseLib/getopt.c:443-520 | the search for the next option element stops, passes a non-option by, or opens an element, in step with the reference scan |
| Getopt.GetoptData.FindRow | zhengtu/baseLib/getopt.c:553-579 | the table loop computes the look-up |
| Getopt.GetoptData.DecodeLetter | zhengtu/baseLib/getopt.c:686-889 | a short option with no, required or optional argument, a missing argument and an unknown letter |
| Getopt.GetoptData.DecodeName | zhengtu/baseLib/getopt.c:541-684 | a long option with or without argument, ambiguous, unknown, or left to the short decoder |
| Getopt.GetoptData.Advance | zhengtu/baseLib/getopt.c:443-891 | one call from any consistent state reports the next item of the reference scan and comes closer to the end |
| Getopt.GetoptData.Getopt | zhengtu/baseLib/getopt.c:415-891 | each call keeps first_nonopt <= last_nonopt <= optind <= argc, reports the next option of the original vector and decreases the measure, or returns -1 with the vector partitioned |
| Getopt.GetoptData.ScanAll | zhengtu/baseLib/getopt.c:415-891 | a whole run reports exactly the options of the original vector in order, in a bounded number of calls, leaves the vector a stable partition (unchanged without permutation) and optind at the boundary |
| ArgpSpec.TablesFit | zhengtu/baseLib/getopt.c:1219-1384 | group count exactly as measured; long table and child slots within; the short string with its terminator fits if and only if ARGP_NO_ARGS is absent or some option row takes fewer than three characters |
| ArgpSpec.NoArgsOverflows | zhengtu/baseLib/getopt.c:1332-1396 | with ARGP_NO_ARGS and no option row the prefix alone does not fit |
| ArgpSpec.ConvertGrows | zhengtu/baseLib/getopt.c:1219-1317 | the second walk writes the counted groups and letters, and no more rows and slots than measured |
| ArgpSpec.GroupDecodes | zhengtu/baseLib/getopt.c:1272-1274 | a packed value decodes to its group if and only if the group is among the first 127, and is then larger than any letter or special code |
| ArgpSpec.KeyDecodes | zhengtu/baseLib/getopt.c:1272-1274 | a packed value decodes to the low 24 bits of the key, sign-extended |
| ArgpSpec.OrKeeps | zhengtu/baseLib/getopt.c:1273 | a row that is no alias, or an alias without key, keeps the key |
| ArgpTree.OrMeans | zhengtu/baseLib/getopt.c:1273 | the combined key has exactly the bits of the row's key and of the key it borrows |
| ArgpTree.RealMeans | zhengtu/baseLib/getopt.c:1230-1237 | a row borrows from the last row up to it that is no alias, or from the first |
| ArgpTree.LetterMeans | zhengtu/baseLib/getopt.c:1239-1242 | a row is a letter exactly when its key is one of the printable characters and neither it nor the row it borrows from is documentation |
| ArgpTree.GroupsAreTheTree | zhengtu/baseLib/getopt.c:1218-1317 | the groups are the parsers with options or a function, in preorder |
| ArgpTree.SizesCount | zhengtu/baseLib/getopt.c:1359-1384 | measured are three characters and one row for every option of the tree, one group for every such parser and one input slot for every descendant |
| ArgpRoute.ShortRoutes | zhengtu/baseLib/getopt.c:1632-1654 | a short letter other than ':' and the prefix reaches the first group in preorder that declares it, and none if none does |
| ArgpRoute.ColonRoutes | zhengtu/baseLib/getopt.c:1632-1654 | the value of ':' reaches the first group that declares ':' or any letter with an argument, and none if none does |
| ArgpRoute.PrefixRoutesFirst | zhengtu/baseLib/getopt.c:1330-1334 | the prefix character as a letter always reaches the first group, so the right one exactly when the first group declares it first |
| ArgpRoute.PrefixMisroutes | zhengtu/baseLib/getopt.c:1330-1334 | with ARGP_IN_ORDER a letter '-' that only the second parser declares is handed to the first |
| ArgpColons.ArgumentSurvives | zhengtu/baseLib/getopt.c:1241-1252 | the scanner reads no, a required or an optional argument for a letter exactly as the first row that declares it says, if and only if that argument is optional or the next letter declared is not ':' |
| ArgpColons.ColonConfuses | zhengtu/baseLib/getopt.c:1241-1252 | a letter without argument followed by the letter ':' is read as taking one |
| ArgpNames.LongRoutes | zhengtu/baseLib/getopt.c:1254-1274 | with at most 127 groups a long option's value reaches the first row in preorder that declares the name, with its key, and collides with no letter and no special code |
| ArgpNames.ChainRoutes | zhengtu/baseLib/getopt.c:1272-1274 | in a chain of parsers of which only the innermost has a long option, its value reaches that group if and only if the group is among the first 127 |
| ArgpNames.LastGroupLost | zhengtu/baseLib/getopt.c:1272-1274 | with 128 groups the value of the last one's option names a negative group and reaches none |
| ArgpNames.AllLongNamed | zhengtu/baseLib/getopt.c:1254-1278 | every declared long name has exactly one entry, made by the first row that declares it |
| ArgpNames.InputSlotInRange | zhengtu/baseLib/getopt.c:1443-1451 | the slot a child parser reads its input from is inside the reserved vector |
| ArgpTree.SlotsDistinct | zhengtu/baseLib/getopt.c:1289-1316 | no two child parsers read their input from one slot |
| Argp.CalcSizes | zhengtu/baseLib/getopt.c:1359-1384 | the first walk adds up the sizes of the tree |
| Argp.Parser.constructor | zhengtu/baseLib/getopt.c:1396-1417 | storage of the measured sizes, and terminated tables with the prefix |
| Argp.Parser.FindLongOption | zhengtu/baseLib/getopt.c:1105-1118 | the first row with the name, or -1 if there is none; without a name the number of rows |
| Argp.Parser.AddShort | zhengtu/baseLib/getopt.c:1241-1252 | a letter and its colons are appended and the string stays terminated; what the colons mean to the scanner is ArgpColons.ArgumentSurvives |
| Argp.Parser.AddLong | zhengtu/baseLib/getopt.c:1258-1277 | a row is appended and the table stays terminated |
| Argp.Parser.AddOptions | zhengtu/baseLib/getopt.c:1230-1280 | the rows of one vector are entered, aliases borrowing from the last row that is none |
| Argp.Parser.ConvertOptions | zhengtu/baseLib/getopt.c:1218-1317 | the second walk fills the tables in place as the specification says, every write inside its storage |
| Argp.ParserInit | zhengtu/baseLib/getopt.c:1396-1421 | measure, reserve, fill: the tables of the whole tree |
| Argp.Parser.ParseOpt | zhengtu/baseLib/getopt.c:1632-1663 | an option value is handed to the group and with the key the tables determine |
| ArgpRun.DecodedRight | zhengtu/baseLib/getopt.c:1632-1663 | each report of the decoder, run on the tables of a parser, is an error, or a long option whose value reaches the first row that declares its name, or a letter whose value reaches the first group that declares it; a row without argument reports none, a required argument is always reported, an optional one is never the next element, except for a letter that ':' follows; the letter ':' is never reported, but a missing argument reported as ':' is taken for an option |
| ArgpRun.ScanRight | zhengtu/baseLib/getopt.c:1219-1317 | so is every report of a whole scan of any command line |
| ArgpRun.FlagsOrder | zhengtu/baseLib/getopt.c:1330-1334 | with ARGP_IN_ORDER only what follows "--" is left to the caller, with ARGP_NO_ARGS alone also what follows the first non-option that no option took |
| ArgpRun.ParseNext | zhengtu/baseLib/getopt.c:1704-1772 | one turn of the parse loop: the next report of the scan is refused, offered to all parsers or handed to its group, and an error is told from the letter '?' |
| ArgpRun.ParseOptions | zhengtu/baseLib/getopt.c:1694-1827 | measure, fill, scan: every option of the command line, in order, up to the first error, is handed to the first group that declares it, with the argument its declaration asks for |
| Ring.AntiClockwiseSteps | zhengtu/libscenesserver/Scene.cpp:1809-1870 | in wrapping 32-bit arithmetic the anti-clockwise function moves to the next place of the ring |
| Ring.ClockwiseSteps | zhengtu/libscenesserver/Scene.cpp:1880-1941 | the clockwise function moves to the previous place |
| Ring.WalksInverse | zhengtu/libscenesserver/Scene.cpp:1809-1941 | on the ring each function undoes the other |
| Ring.SingleCycle | zhengtu/libscenesserver/Scene.cpp:1809-1941 | each function is a single cycle of length 8*side through the whole ring |
| Spiral.SpiralBijective | zhengtu/libscenesserver/Scene.cpp:2016-2051 | the spiral meets every displacement exactly once, nearer rings first |
| Spiral.EntryTurns | zhengtu/libscenesserver/Scene.cpp:2003-2019 | start direction 0 enters the first ring right above the centre, and each next direction at the next cell clockwise |
| Spiral.EntryScales | zhengtu/libscenesserver/Scene.cpp:2016-2050 | every later ring is entered in the same direction, further out |
| Spiral.SpiralTurns | zhengtu/libscenesserver/Scene.cpp:2022-2044 | along a ring the search goes from neighbour to neighbour with a cross product of one sign: anti-clockwise when the parameter is 1, clockwise otherwise |
| Spiral.AdvanceIsNext | zhengtu/libscenesserver/Scene.cpp:2016-2051 | one iteration of the search loop, for any start direction and rotation, moves to the next place of the spiral |
| SpiralRun.SearchesEnumerate | zhengtu/libscenesserver/Scene.cpp:1996-2067 | repeated searches return cells of the map, none twice, none the centre, in non-decreasing Chebyshev distance, skipping none |
| SpiralRun.NoRingSkipped | zhengtu/libscenesserver/Scene.cpp:1996-2067 | between two searches no ring of a rectangular map is without a cell |
| SpiralRun.AllFound | zhengtu/libscenesserver/Scene.cpp:1996-2067 | every cell of the map has been found exactly when as many have been found as the map has |
| SpiralRun.CellAhead | zhengtu/libscenesserver/Scene.cpp:1996-2067 | while fewer have been found, a cell of the map lies ahead |
| SpiralRun.NothingAhead | zhengtu/libscenesserver/Scene.cpp:1996-2067 | once all have been found, no place further on is on the map, on the first 2^31 rings |
| Scene.Scene.GetNextPos | zhengtu/libscenesserver/Scene.cpp:1996-2067 | returns the first cell of the map after the current place, and ends whenever a cell is left; off the map it fails, resets the position and widens the ring |
| Scene.Scene.VisitAll | zhengtu/libscenesserver/Scene.cpp:1996-2067 | as many calls as the map has other cells return every cell but the centre, once each, nearer ones first |
| Scene.Scene.FindPosForUser | zhengtu/libscenesserver/Scene.cpp:97-116 | on success the cell was free, no free cell was closer, it is at distance 15 or less with fewer than 784 cells nearer, and exactly it is now blocked; on failure nothing changed, all cells at distance 13 or less are blocked, and so are all at distance 14 or there were 784 blocked ones within it; a centre off the map can only yield cell (0,0) |
| Scene.Scene.SearchGoesOn | zhengtu/libscenesserver/Scene.cpp:104-112 | the search ends if some cell is free, or one lies beyond distance 14, or there are more than 784 cells |
| Scene.Scene.SearchNeverEnds | zhengtu/libscenesserver/Scene.cpp:104-112 | otherwise whatever it finds is blocked, near and not too much, so it searches again, until nothing lies ahead on the first 2^31 rings |
| Scene.Scene.OneBlockedCell | zhengtu/libscenesserver/Scene.cpp:104-112 | on a map of one cell that is blocked it does not end |
| Zes.PermOpInvolution | zhengtu/libsrvcore/miniCrypt.c:87-89 | each bit exchange undoes itself |
| Zes.PermutationsInverse | zhengtu/libsrvcore/miniCrypt.c:91-109 | the final permutation undoes the initial one and conversely |
| ZesLaws.IPTransposes | zhengtu/libsrvcore/miniCrypt.c:91-99 | the initial permutation, bit by bit: bit k of every byte goes to one byte, the bytes becoming its bits, the first the highest |
| ZesLaws.FReads | zhengtu/libsrvcore/miniCrypt.c:66-85 | table j is read at bits 4j + 2 to 4j + 7, around the word, of the right word mixed with one key word, the first for even j and the second for odd j |
| ZesLaws.BitXor8 | zhengtu/libsrvcore/miniCrypt.c:77-85 | the results of the eight tables are combined by parity, bit by bit |
| ZesLaws.PlainReads | zhengtu/libsrvcore/miniCrypt.c:479-482 | under the rotation the kernel works with, bit i of an index word is bit i - 3 of the word mixed with bit i of the key word |
| ZesLaws.KernelMeans | zhengtu/libsrvcore/miniCrypt.c:469-514 | encryption uses the round keys from the first to the last, decryption from the last to the first, and the second word goes in as the left one |
| ZesLaws.TripleMeans | zhengtu/libsrvcore/miniCrypt.c:607-645 | triple encryption is encryption, decryption, encryption under the three schedules in order; triple decryption the reverse |
| Zes.RoundsInverse | zhengtu/libsrvcore/miniCrypt.c:74-85 | the rounds in reverse order on swapped words undo the rounds, for every table and schedule |
| Zes.Kernel2Inverse | zhengtu/libsrvcore/miniCrypt.c:516-605 | each direction of the kernel undoes the other |
| Zes.Encrypt1Inverse | zhengtu/libsrvcore/miniCrypt.c:469-514 | decryption undoes encryption and conversely, for every block, schedule and table |
| Zes.Encrypt3Inverse | zhengtu/libsrvcore/miniCrypt.c:607-645 | triple decryption undoes triple encryption and conversely |
| Zes.DecryptIsReversed | zhengtu/libsrvcore/miniCrypt.c:484-504 | decrypting is encrypting under the round-reversed schedule |
| Zes.PalindromeInvolution | zhengtu/libsrvcore/miniCrypt.c:484-504 | a palindromic schedule makes encryption an involution |
| Zes.TripleOfOne | zhengtu/libsrvcore/miniCrypt.c:607-645 | triple use of one schedule is single use |
| MiniCrypt.SixteenRounds | zhengtu/libsrvcore/miniCrypt.c:484-505 | the loops that change roles of the words in place compute the sixteen rounds in either order |
| MiniCrypt.ZesEncrypt1 | zhengtu/libsrvcore/miniCrypt.c:469-514 | overwrites two words with the image of the block and nothing else |
| MiniCrypt.ZesEncrypt2 | zhengtu/libsrvcore/miniCrypt.c:516-605 | the same for the kernel without the outer permutations |
| MiniCrypt.ZesEncrypt3 | zhengtu/libsrvcore/miniCrypt.c:607-625 | the same for triple encryption |
| MiniCrypt.ZesDecrypt3 | zhengtu/libsrvcore/miniCrypt.c:627-645 | the same for triple decryption |
| Rc5.RotateInverse | zhengtu/libsrvcore/miniCrypt.c:31-32 | rotating by a data word is undone by rotating back by it |
| Rc5.StepInverse | zhengtu/libsrvcore/miniCrypt.c:38-56 | each round macro undoes the other |
| Rc5.CipherInverse | zhengtu/libsrvcore/miniCrypt.c:771-847 | decryption undoes encryption and conversely, for every key table and round count |
| Rc5Laws.RotateBits | zhengtu/libsrvcore/miniCrypt.c:31 | a rotation to the left by n moves every bit n places up, around the word |
| Rc5Laws.EncryptMeans | zhengtu/libsrvcore/miniCrypt.c:771-808 | each word is the one before the last mixed with the last, turned by it, plus a word of the table; encryption gives words 2n and 2n + 1, for 12 and 16 rounds n as asked, else 8 |
| Rc5Laws.RoundsAgree | zhengtu/libsrvcore/miniCrypt.c:724-727 | the cipher performs the rounds the key was made for: those asked if 8, 12 or 16, else 16 |
| Rc5Laws.QIsGolden | zhengtu/libsrvcore/miniCrypt.c:27 | the increment is the odd integer nearest the golden ratio's fraction of 2^32 |
| Rc5Laws.PIsEuler | zhengtu/libsrvcore/miniCrypt.c:26 | the first word is the odd integer nearest (e - 2) * 2^32 |
| Rc5Laws.MixMeans | zhengtu/libsrvcore/miniCrypt.c:755-768 | after any number of mixing steps every place of both tables holds what its last visit left, the visits following one recurrence |
| Rc5Laws.KeyTableMeans | zhengtu/libsrvcore/miniCrypt.c:732-768 | the table of a key is where the mixing stands after three turns of the longer table, begun from the progression and the key's words |
| MiniCrypt.Rc5Encrypt | zhengtu/libsrvcore/miniCrypt.c:771-808 | overwrites two words with the encrypted block |
| MiniCrypt.Rc5Decrypt | zhengtu/libsrvcore/miniCrypt.c:810-847 | overwrites two words with the decrypted block |
| Rc5Key.BackwardsIsLittle | zhengtu/libsrvcore/miniCrypt.c:7-21 | the bytes read backwards by the fall-through switch make the zero-padded little-endian word |
| Rc5Key.LoadKey | zhengtu/libsrvcore/miniCrypt.c:732-747 | keys of 1 to 256 bytes become their zero-padded little-endian words, every index in range |
| Rc5Key.Rc5KeyTable.FillTable | zhengtu/libsrvcore/miniCrypt.c:751-753 | the initial table is the progression from P by Q, modulo 2^32 |
| Rc5Key.Rc5KeyTable.MixKey | zhengtu/libsrvcore/miniCrypt.c:755-768 | the mixing loop performs 3*max(t,c) steps with both indices in range |
| Rc5Key.Rc5KeyTable.SetKey | zhengtu/libsrvcore/miniCrypt.c:719-769 | round counts other than 8, 12 and 16 become 16; the first 2(rounds+1) words are the key's table, the rest is kept |
| EncDec.CryptTail | zhengtu/libsrvcore/zEncDec.cpp:46-78 | the last n mod 8 bytes are kept |
| EncDec.CryptInverse | zhengtu/libsrvcore/zEncDec.cpp:46-78 | a buffer of any length mapped in one direction and then in the other is unchanged |
| CipherLaws.WordBits | zhengtu/libsrvcore/zEncDec.cpp:50-57 | bits 8k to 8k + 7 of a word are those of its byte k |
| CipherLaws.BlockBytes | zhengtu/libsrvcore/zEncDec.cpp:50-57 | the first four bytes of a block make its first word, the other four its second, and are stored back in the same places |
| CipherLaws.CryptBlock | zhengtu/libsrvcore/zEncDec.cpp:46-78 | block k of the mapped buffer is the image of block k of the buffer, each under the key alone |
| CipherLaws.DesDirection | zhengtu/libsrvcore/zEncDec.cpp:46-59 | encrypting a buffer uses the round keys from the first to the last, between the permutations; decrypting from the last to the first |
| CipherLaws.Rc5Direction | zhengtu/libsrvcore/zEncDec.cpp:61-78 | encrypting with RC5 gives the last words of its recurrence, and decrypting finds the block they come from |
| EncDec.CEncrypt.EncDecDes | zhengtu/libsrvcore/zEncDec.cpp:46-59 | transforms the whole blocks in place, keeps the rest, returns n mod 8; -1 without buffer or key |
| EncDec.CEncrypt.EncDecRc5 | zhengtu/libsrvcore/zEncDec.cpp:61-78 | the same with RC5 |
| EncDec.CEncrypt.EncDec | zhengtu/libsrvcore/zEncDec.cpp:97-109 | dispatch on the method; -1 without method or key, -2 for an unknown method |
| EncDec.CEncrypt.RoundTrip | zhengtu/libsrvcore/zEncDec.cpp:97-109 | encrypting and decrypting in place with the same method and key restores every byte and returns n mod 8 both times |
| EncDec.CEncrypt.SetKeyRc5 | zhengtu/libsrvcore/zEncDec.cpp:91-95 | the key table is that of the key, and the key is present |
| EncDec.CEncrypt.SetKeyDes | zhengtu/libsrvcore/zEncDec.cpp:85-89 | the schedule is stored, and the key is present |
| Base64Spec.DigitValue | zhengtu/baseLib/base64Lib.c:183-198 | the decoding table is the inverse of the encoding alphabet |
| Base64Laws.AlphabetMeans | zhengtu/baseLib/base64Lib.c:10-16 | the digits are the 64 characters A-Z, a-z, 0-9, +, / in this order; only these decode to values, = ends, and space, tab, CR and LF are skipped |
| Base64Laws.QuadMeans | zhengtu/baseLib/base64Lib.c:33-43 | three bytes become four digits that spell the same number, high bits first |
| Base64Laws.PaddedMeans | zhengtu/baseLib/base64Lib.c:45-75 | what is left over is encoded as if zeros followed, with = for the digits that hold none of it |
| Base64Laws.DigitsAt | zhengtu/baseLib/base64Lib.c:31-44 | digits 4k to 4k + 3 are those of the triple from byte 3k on |
| Base64Laws.TripleMeans | zhengtu/baseLib/base64Lib.c:94-111 | four digits become the three bytes of the number they spell, high bits first |
| Base64Laws.FoldMeans | zhengtu/baseLib/base64Lib.c:173-181 | folded text is whole lines of w characters, each ended by CR LF, and a last one that is not full |
| Base64Spec.FoldLength | zhengtu/baseLib/base64Lib.c:173-181 | lines of width w add two characters for every w characters |
| Base64Spec.MeasureExact | zhengtu/baseLib/base64Lib.c:22-27 | the measuring pass equals the written length if and only if that length is below 2^32 and there are no lines or the character count plus the width stays below 2^32 |
| Base64Spec.MeasureWraps | zhengtu/baseLib/base64Lib.c:22-27 | one byte on lines of 2^32 - 1 characters is measured as 2 characters and written as 4 |
| Base64.CheckLine | zhengtu/baseLib/base64Lib.c:173-181 | ends the line when it is full |
| Base64.WriteText | zhengtu/baseLib/base64Lib.c:28-76 | writes exactly the text, folded, and a terminator |
| Base64.Encode | zhengtu/baseLib/base64Lib.c:8-76 | measuring and writing pass against one specification of the text, for a given length or a terminated buffer |
| Base64Decode.StripFold | zhengtu/baseLib/base64Lib.c:88-98 | line ends do not change what a text holds |
| Base64Decode.RoundTrip | zhengtu/baseLib/base64Lib.c:8-119 | decoding the encoding of any bytes at any line width gives the bytes back, and the encoding is always a whole number of groups or ended by '=' |
| Base64.CountExact | zhengtu/baseLib/base64Lib.c:93 | three quarters of the digit count, in 32 bits, is the number of bytes if and only if the product does not wrap and no incomplete group is left without '=' |
| Base64.CountWrong | zhengtu/baseLib/base64Lib.c:93 | for two digits without '=' one byte is counted and none is decoded |
| Base64.CountDigits | zhengtu/baseLib/base64Lib.c:86-92 | counts the digits before the end; fails exactly on a bad character before the end |
| Base64.WriteBytes | zhengtu/baseLib/base64Lib.c:94-118 | writes the first bytes the text holds, as many as the buffer takes, and nothing else |
| Base64.Decode | zhengtu/baseLib/base64Lib.c:79-119 | -1 exactly for bad texts; without buffer the exact condition for a right count; with a buffer exactly a prefix; for a given length or a terminated text |

## Left out

- MtPoolCode.Pool.Allocate: runs a call without interruption; the interleavings are those of the machine in `MtPool`.
- MtPoolCode.Pool.GetThreadId: stated, like the calls it belongs to, while no other thread is inside a call.
- MtPoolCode.Pool.DestroyThreadKey: the same.
- MtPoolCode.Pool.CarveChunk: the same.
- MtPoolCode.Pool.GrabBlocks: the same.
- MtPoolCode.Pool.ReturnBlocks: the same.
- MtPoolCode.Pool.Deallocate: the same; it takes the size the block was requested with, as the source demands of its caller.
- Getopt.GetoptData.Getopt: the caller does not move `optind` between calls, the letter W of the option string is not followed by `;` (that branch steps `optind` twice, zhengtu/baseLib/getopt.c:790), and no long option has the value -1 where the end of the scan must be told from it; error messages are not modelled, and characters are taken to be below 128.
- Getopt.GetoptData.ScanAll: the same.
- Getopt.GetoptData.Advance: the same, without the `W;` branch.
- Getopt.GetoptData.DecodeLetter: the same, without the `W;` branch.
- Argp.ParserInit: requires the exact condition under which the short option string fits; outside it the source writes past its storage.  A null argp, parser callbacks and help output are not modelled.
- Argp.Parser.constructor: requires storage for the prefix, without which the source writes past its storage.
- Argp.Parser.ParseOpt: takes values whose group is one of the parser's; for any other the source indexes outside its groups.
- ArgpRun.ParseOptions: at most 127 groups; what the parsers do with their options, and that they may move the cursor, is not modelled, nor what becomes of the elements after the options.
- Scene.Scene.GetNextPos: requires a cell of the map ahead; without one the source walks on until its ring number leaves the 32-bit range.
- Scene.Scene.FindPosForUser: requires, for a centre on the map, the exact condition under which the search ends.  `zPosValidate` and `checkBlock` are not part of the source; they are a bounds test with width and height below 2^31 and a grid of flags, and a cell off the map counts as blocked.
- Base64.Encode: the output buffer is large enough for the text and its terminator, since the source ignores the stated size.
- EncDec.CEncrypt.EncDec: an active method needs at least 8 bytes, since the source subtracts 8 from an unsigned length.
- EncDec.CEncrypt.EncDecDes: the same.
- EncDec.CEncrypt.EncDecRc5: the same.
- EncDec.CEncrypt.RoundTrip: the same.
- EncDec.CEncrypt.SetKeyDes: takes the schedule; how `ZES_set_key` derives it is left out.
- EncDec.CEncrypt.SetKeyRc5: takes keys of 1 to 256 bytes.
- Rc5Key.Rc5KeyTable.SetKey: the same; a key of length 0 leaves a word unset in the source, and a longer one is written past its array.
- Rc5Key.LoadKey: the same.
- Real memory model, `volatile`, failing `operator new`, requests above the limit, the force-new mode and the single-threaded mode of the allocator: direct calls to the system, or no concurrency.
- `ZES_set_key`, random and weak keys, equality of the tables with the published standard: tables and text, no behaviour beyond them.
- `findPosForObject`: as `findPosForUser` but it marks a cell after its limit is reached.
- Formatting of help text, message handling, map loading and the classes whose definitions are not in the repository.
