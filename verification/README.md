# SMM CPU driver and CPU DXE driver: what they promise, proved in Dafny

This project models the hardest parts of the two IA32 family CPU drivers and proves what they are meant to
guarantee. Each group of modules stands for one component.

- **SMM rendezvous** (`Rendezvous`, `RendezvousInvariant`, `RendezvousSafety`, `RendezvousTheorems`,
  `RendezvousProgress`, `RendezvousPolling`, `RendezvousCalls`, `RendezvousServed`, with `Sums`). N CPUs meet in SMM
  through counting semaphores, flags and spin locks. The model is a machine with one program counter per CPU and one shared access per step, over any number of runs, in
  traditional mode, relaxed mode and with MTRR configuration (three or six barrier rounds). An inductive invariant
  says what every semaphore holds at every position of the BSP; barrier lockstep, membership, exactness of
  scheduled procedures, the clean end of a run, absence of deadlock and termination follow from it; which calls go
  through and which are refused is stated step by step, and a whole run that serves a call is constructed.
- **Page attributes** (`PageTree`, `PageAttributes`). The library edits a 4-level (or PAE) page table in place.
  The flat map that a table stands for is defined by searching it; an attribute request is proved to change exactly
  the pages asked for, but for pages whose entry becomes all zero, which are named beforehand; whether it succeeds is
  decided by the table and the number of free pages, and it takes exactly one new table, at most four, for each leaf
  that the ends of the range cut.
- **Demand paging** (`PagingTree`, `PageReclaim`, `DemandPaging`, `ReclaimInWalk`, `WalkMishap`, `ServedTwice`). The
  table tree with its child counts, the aging scan, the reclaimer, and the fault handler's walk, which may reclaim pages itself, over
  one set of pages that is never lost or doubled; exactly when such a reclaim costs the walk its own tables; and what
  a second service of the same page leaves.
- **Page policy** (`PagePolicy`) and **profile traps** (`ProfileTrap`). Which addresses are present and executable
  in SMM, where the identity map needs 4KB pages to say so, and the cycle of opening an entry on a fault and closing
  it on the next trap, interleaved over all CPUs down to single stores.
- **MTRR to GCD** (`MtrrGcd`), **stack guard map** (`StackGuard`), **MSR locks** (`MsrLocks`), **hot plug**
  (`HotPlug`) and **SMRAM** (`SmramMerge`).

`Common` and `Sums` hold what several modules share.

Code that works by changing things step by step is a class or a method here, proved against functions on values;
the lemmas are about those functions. The rendezvous and the interleaved traps are step relations on values.
`dafny verify dfyconfig.toml` checks everything.

## How to read it

In `Rendezvous` a CPU's `Pc` names the shared access it makes next; `member`, `job`, `accepted` and `ran` are
history. `E()` is the barrier round whose release tells the APs to leave and `K()` the number of rounds. `Sig` and
`Took` count the signals an AP has given and the tokens it has taken, `Done` and `Given` the same for the BSP. A
compare-exchange that is retried and a polling read that finds nothing are steps that are not enabled. Addresses in
the page table modules are counted in 4KB pages.

## Where the code falls short

The code was followed, and the exact condition proved under which it does what it is meant to do, with an input for
which it does not.

- `ReclaimInWalk.MappedIffSpared`, `WalkMishap.PageIsLost`: with the pool empty, the fault handler can release a table
  that its walk is in, because child counts are corrected only after the walk; the page is then not mapped.
- `PageAttributes.SofarMeans`, `PageAttributes.AtRiskIff`, `PageAttributes.SplitLosesPage`,
  `PageAttributes.ConvertLosesPage`: a split or a change of attributes can write an all-zero entry, which the search
  takes for a hole; a call that succeeds loses exactly the pages that are endangered before it.
- `PageAttributes.PageTable.ConvertMemoryPageAttributes`, `PageAttributes.SplitFailsCall`: the loop can come to such a
  hole that its own split has made, and then fails with everything before it converted.
- `ServedTwice.AgainAll`, `ServedTwice.AheadIsKept`: two CPUs can fault at one page; serving the second leaves the
  count of sub-entries one too high, and the climb of a reclaim does not release that table.
- `PagePolicy.SmrrWholeBlocks`: an SMRR smaller than 2MB at address 0 does not get 4KB pages.
- `PagePolicy.RoomIff`, `PagePolicy.RoomCanRunOut`: the room for split ranges can be too small.
- `PagePolicy.Above512GB`, `PagePolicy.Above512GBProfile`, `PagePolicy.AssertAbove512GB`,
  `PagePolicy.Above512GBDiffers`: the policy is looked up at an address that lacks the bits above 512GB.
- `ProfileTrap.RecordedOnceIff`, `ProfileTrap.ClosedAgainIff`, `ProfileTrap.RecordedTwice`: the handler does not look
  again whether the entry still denies the access, so that two CPUs denied at one entry can leave it open for good.
- `ProfileTrap.NothingLeaks`, `ProfileTrap.EleventhFaultLeaks`: an eleventh fault between two traps leaves an entry
  open.
- `HotPlug.AddKeeps`, `HotPlug.RefilledTooEarly`: a slot refilled before its removal is retired is counted twice.
- `SmramMerge.RegionIff`, `SmramMerge.WrapMerges`, `SmramMerge.WrapForever`: a range that ends at 4GB takes one at 0 for
  its neighbour.

## Model

| member | source | states |
|---|---|---|
| `RendezvousSafety.QuietIsInv` | IA32FamilyCpuPkg/PiSmmCpuDxeSmm/MpService.c:1311-1324 | the state that initialisation leaves satisfies the invariant of the rendezvous |
| `RendezvousSafety.StepKeepsInv` | IA32FamilyCpuPkg/PiSmmCpuDxeSmm/MpService.c:324-761 | every step of every CPU, in traditional, relaxed and MTRR mode, and every new SMI or mode request keeps the invariant: which tokens are on their way, who is present, what each semaphore and flag holds at each position of the BSP |
| `RendezvousSafety.RunFits` | IA32FamilyCpuPkg/PiSmmCpuDxeSmm/MpService.c:75-90 | in every reachable state a CPU's Run is far below the lock value, so that no release is dropped and no token lost |
| `RendezvousSafety.MembersPositive` | IA32FamilyCpuPkg/PiSmmCpuDxeSmm/MpService.c:381-381 | there is a member as soon as there is a BSP, so Counter - 1 does not wrap at lockdown |
| `RendezvousSafety.WaitFindsAll` | IA32FamilyCpuPkg/PiSmmCpuDxeSmm/MpService.c:131-134 | when a wait for all APs returns, every AP of the run has given exactly the signal of that round and the BSP's Run is empty |
| `RendezvousSafety.ScanFindsAll` | IA32FamilyCpuPkg/PiSmmCpuDxeSmm/MpService.c:480-490 | in relaxed mode the presence scan ends only with the Present flags of exactly the members set |
| `RendezvousSafety.LastBarrier` | IA32FamilyCpuPkg/PiSmmCpuDxeSmm/MpService.c:553-553 | after the BSP's last wait every AP of the run has finished, with its Run empty, its Present flag clear and all its work done |
| `RendezvousTheorems.BarrierHolds` | IA32FamilyCpuPkg/PiSmmCpuDxeSmm/MpService.c:125-135 | the k-th wait of the BSP returns only after each AP of the run has signalled exactly k times and got past k - 1 of its own waits |
| `RendezvousTheorems.Lockstep` | IA32FamilyCpuPkg/PiSmmCpuDxeSmm/MpService.c:143-156 | at any moment each AP is within one barrier of the BSP and has passed no wait that the BSP has not released it from |
| `RendezvousTheorems.PassedBarrier` | IA32FamilyCpuPkg/PiSmmCpuDxeSmm/MpService.c:660-759 | no AP passes a barrier that another AP of the run has not reached |
| `RendezvousTheorems.GatheredAtHandlers` | IA32FamilyCpuPkg/PiSmmCpuDxeSmm/MpService.c:370-423 | in traditional mode, and with MTRRs to configure, the handlers begin when Counter is locked and every member is present, each after one signal and no token, or with MTRRs after three signals and two tokens |
| `RendezvousTheorems.OpenAtHandlers` | IA32FamilyCpuPkg/PiSmmCpuDxeSmm/MpService.c:460-490 | in relaxed mode without MTRRs CPUs are still counted in while the handlers run: Counter is the number of members |
| `RendezvousTheorems.RoundsAtEnd` | IA32FamilyCpuPkg/PiSmmCpuDxeSmm/MpService.c:548-553 | a run has three barrier rounds, or six with MTRRs to configure: that many signals of each AP by the BSP's last wait |
| `RendezvousTheorems.LockedMembers` | IA32FamilyCpuPkg/PiSmmCpuDxeSmm/MpService.c:475-476 | from lockdown to the reset, ApCount + 1 is the number of members, the BSP among them, and Counter stays locked |
| `RendezvousTheorems.MembersOnlyJoin` | IA32FamilyCpuPkg/PiSmmCpuDxeSmm/MpService.c:1075-1087 | a CPU becomes a member only by its own increment of an unlocked Counter, and stays one until the BSP's last write |
| `RendezvousTheorems.RefusedChangesNothing` | IA32FamilyCpuPkg/PiSmmCpuDxeSmm/MpService.c:1075-1086 | a CPU that finds Counter locked changes nothing but its own position, and AllCpusInSync is set to hold it |
| `RendezvousTheorems.OneMode` | IA32FamilyCpuPkg/PiSmmCpuDxeSmm/MpService.c:508-508 | all members use one sync mode, the BSP's |
| `RendezvousTheorems.NextRunsMode` | IA32FamilyCpuPkg/PiSmmCpuDxeSmm/MpService.c:504-508 | over every history, the sync mode last asked for before the BSP's step is the one in force from that step to the next BSP's |
| `RendezvousTheorems.ReadsMode` | IA32FamilyCpuPkg/PiSmmCpuDxeSmm/MpService.c:324-567 | a CPU that reads the sync mode takes the one in force |
| `RendezvousTheorems.WindowNotMissed` | IA32FamilyCpuPkg/PiSmmCpuDxeSmm/MpService.c:591-596 | an AP still looking for InsideSmm finds it set once the BSP has entered: the window does not close on a member |
| `RendezvousTheorems.SmiCovers` | IA32FamilyCpuPkg/PiSmmCpuDxeSmm/MpService.c:1054-1071 | an SMI that finds no CPU on its way out opens a time that is covered, and keeps the invariant |
| `RendezvousTheorems.ServiceCovered` | IA32FamilyCpuPkg/PiSmmCpuDxeSmm/MpService.c:1054-1071 | over every run from such an SMI on, the time stays covered until the BSP clears InsideSmm |
| `RendezvousTheorems.NoInvalidExit` | IA32FamilyCpuPkg/PiSmmCpuDxeSmm/MpService.c:1054-1071 | in all of that time a CPU that samples the SMI status and InsideSmm goes on to be counted and never takes the exit for an invalid SMI |
| `RendezvousTheorems.InvalidExit` | IA32FamilyCpuPkg/PiSmmCpuDxeSmm/MpService.c:1060-1071 | a CPU that found neither an SMI nor a run in progress goes out again and changes nothing |
| `RendezvousTheorems.WorkInOrder` | IA32FamilyCpuPkg/PiSmmCpuDxeSmm/MpService.c:690-721 | on every CPU the procedures that ran are the accepted ones in order, each once, all but at most the last one |
| `RendezvousTheorems.WorkDone` | IA32FamilyCpuPkg/PiSmmCpuDxeSmm/MpService.c:446-451 | before InsideSmm is cleared every accepted procedure has run |
| `RendezvousTheorems.BlockingReturns` | IA32FamilyCpuPkg/PiSmmCpuDxeSmm/MpService.c:1009-1011 | the blocking form returns only after the procedure has run |
| `RendezvousTheorems.TokenMeaning` | IA32FamilyCpuPkg/PiSmmCpuDxeSmm/MpService.c:694-721 | the token an AP has taken at its main wait is a procedure's exactly while InsideSmm is set, and then the Busy lock is held and the procedure is the one accepted; else it is the exit signal of the BSP |
| `RendezvousTheorems.AcceptedTask` | IA32FamilyCpuPkg/PiSmmCpuDxeSmm/MpService.c:964-966 | the step that accepts a call hands exactly its procedure and parameter to its target, with one token |
| `RendezvousCalls.CallBegins` | IA32FamilyCpuPkg/PiSmmCpuDxeSmm/MpService.c:441-456 | an SMI handler may call either form of SmmStartupThisAp for any CPU, and PerformRemainingTasks the blocking one: the BSP then looks for the target |
| `RendezvousCalls.CallGoesThrough` | IA32FamilyCpuPkg/PiSmmCpuDxeSmm/MpService.c:956-973 | in every reachable state, a call for a CPU that is in range, present, not busy and not the BSP goes through: five steps of the BSP take the Busy lock, put the procedure and its parameter in place and add one token, and nothing else changes but the BSP's position |
| `RendezvousCalls.AbsentIsRefused` | IA32FamilyCpuPkg/PiSmmCpuDxeSmm/MpService.c:956-962 | a call for a target that is out of range, is the BSP or is not present is refused, and changes nothing but the BSP's position |
| `RendezvousCalls.BusyIsRefused` | IA32FamilyCpuPkg/PiSmmCpuDxeSmm/MpService.c:959-962 | so is one for a target that is busy, or has been removed |
| `RendezvousCalls.AcceptedRuns` | IA32FamilyCpuPkg/PiSmmCpuDxeSmm/MpService.c:690-721 | in every reachable state, a procedure that was accepted and has not run can run at once: at most four steps of its target alone run it, as handed over, free the Busy lock and change nothing but the target |
| `RendezvousServed.ACallIsServed` | IA32FamilyCpuPkg/PiSmmCpuDxeSmm/MpService.c:324-761 | from every quiet state with two CPUs outside SMM there is a run, begun by an SMI, in any mode, in which a handler on the one has any procedure run on the other with either form of the call: at its quiet end that procedure has run there once more, nothing else anywhere, and the SMI status is clear |
| `RendezvousTheorems.RunEndsQuiet` | IA32FamilyCpuPkg/PiSmmCpuDxeSmm/MpService.c:565-566 | the BSP's last write leaves everything as initialisation does, so runs compose |
| `RendezvousTheorems.RunIsZeroAtEnd` | IA32FamilyCpuPkg/PiSmmCpuDxeSmm/MpService.c:1189-1189 | the ASSERT on Run at the end of SmiRendezvous holds |
| `RendezvousProgress.MeasureDrops` | IA32FamilyCpuPkg/PiSmmCpuDxeSmm/MpService.c:324-761 | every working step lowers the measure of remaining work |
| `RendezvousProgress.NoDeadlock` | IA32FamilyCpuPkg/PiSmmCpuDxeSmm/MpService.c:324-761 | while there is a BSP some CPU can move, and the proof names the one a waiting BSP waits for |
| `RendezvousProgress.StretchIsFinite` | IA32FamilyCpuPkg/PiSmmCpuDxeSmm/MpService.c:324-761 | without new SMIs, new procedures and vain presence scans no schedule makes more steps than the measure of its first state |
| `RendezvousProgress.RunCompletes` | IA32FamilyCpuPkg/PiSmmCpuDxeSmm/MpService.c:324-567 | from every reachable state with a BSP some schedule reaches the quiet end |
| `RendezvousProgress.StandstillWithoutBsp` | IA32FamilyCpuPkg/PiSmmCpuDxeSmm/MpService.c:591-596 | before an election only CPUs that wait for a BSP, or are outside, cannot move |
| `RendezvousPolling.VainChangesNothing` | IA32FamilyCpuPkg/PiSmmCpuDxeSmm/MpService.c:480-490 | beginning the presence scan again with a member missing changes nothing but the place in the scan, and another CPU can move meanwhile |
| `RendezvousPolling.StridesAreBounded` | IA32FamilyCpuPkg/PiSmmCpuDxeSmm/MpService.c:324-761 | however often the presence scan goes round in vain in between, no schedule makes more other steps than a measure of its first state |
| `RendezvousPolling.ScheduleIsFinite` | IA32FamilyCpuPkg/PiSmmCpuDxeSmm/MpService.c:324-761 | each scan in vain makes a schedule at most 2n + 3 steps longer than the measure |
| `RendezvousPolling.EveryScheduleEnds` | IA32FamilyCpuPkg/PiSmmCpuDxeSmm/MpService.c:324-761 | every schedule, scans in vain included, that goes on until nobody but a scanning BSP can move has come to the quiet end of the run |
| `PageTree.StopShared` | IA32FamilyCpuPkg/CpuArchDxe/CpuPageTable.c:282-327 | the way down ends at one entry for two pages exactly when they lie under the same entry of that level |
| `PageTree.StopSet` | IA32FamilyCpuPkg/CpuArchDxe/CpuPageTable.c:444-444 | rewriting a leaf leaves every page's way down as it was |
| `PageTree.TreeSet` | IA32FamilyCpuPkg/CpuArchDxe/CpuPageTable.c:444-444 | rewriting a leaf keeps the tables a tree without sharing |
| `PageTree.StopGrow` | IA32FamilyCpuPkg/CpuArchDxe/CpuPageTable.c:526-529 | after a split the way of a page under the split entry ends one level down, and everybody else's where it did |
| `PageTree.TreeGrow` | IA32FamilyCpuPkg/CpuArchDxe/CpuPageTable.c:526-529 | a split keeps the tables a tree without sharing |
| `PageAttributes.PageTable.GetPageTableEntry` | IA32FamilyCpuPkg/CpuArchDxe/CpuPageTable.c:266-330 | the entry found is the one the search down the tree gives, with its page size |
| `PageAttributes.PaeFlatIs` | IA32FamilyCpuPkg/CpuArchDxe/CpuPageTable.c:266-330 | what the flat map of a PAE table says of a page, read off the entries at its three indices: frame, RP, RO and XP of a 1GB, 2MB or 4KB page; an entry of zeros is a hole but for that of page 0 |
| `PageAttributes.LongFlatIs` | IA32FamilyCpuPkg/CpuArchDxe/CpuPageTable.c:266-330 | the same of a 4-level table |
| `PageAttributes.ConvertMaps` | IA32FamilyCpuPkg/CpuArchDxe/CpuPageTable.c:368-451 | rewriting an entry assigns, sets or clears RP, RO and (where XD is active) XP for each of its pages and keeps their frames |
| `PageAttributes.PageTable.ConvertPageEntryAttribute` | IA32FamilyCpuPkg/CpuArchDxe/CpuPageTable.c:368-451 | the entry becomes the requested one, nothing else changes, and the flag says whether it changed |
| `PageAttributes.NeedSplitPage` | IA32FamilyCpuPkg/CpuArchDxe/CpuPageTable.c:463-484 | no split exactly when the page is aligned and covered; a 2M page is never to be split to 2M, a 4K page never at all |
| `PageAttributes.PieceMapsAlike` | IA32FamilyCpuPkg/CpuArchDxe/CpuPageTable.c:527-527 | what a leaf has become for a page after splits of any depth maps that page as the whole leaf did |
| `PageAttributes.KidVanishes` | IA32FamilyCpuPkg/CpuArchDxe/CpuPageTable.c:324-324 | a split writes an all-zero entry, which the search takes for a hole, exactly for frame 0 with all handed-down bits clear |
| `PageAttributes.ConvertVanishes` | IA32FamilyCpuPkg/CpuArchDxe/CpuPageTable.c:368-451 | a change of attributes writes such an entry exactly when it clears P, RW and NX of an entry that has nothing else |
| `PageAttributes.PageTable.SplitPage` | IA32FamilyCpuPkg/CpuArchDxe/CpuPageTable.c:498-558 | the leaf becomes a table of 512 leaves on the next free page, or nothing changes and there is no page |
| `PageAttributes.SplitFlat` | IA32FamilyCpuPkg/CpuArchDxe/CpuPageTable.c:498-558 | in any table, a split changes the mapping of no page, but for one whose entry of the new table is all zero, which is lost |
| `PageAttributes.SplitKeepsIff` | IA32FamilyCpuPkg/CpuArchDxe/CpuPageTable.c:498-558 | in any table, a split leaves the flat map alone if and only if the leaf is not a 2M page of frame 0 away from address 0 with all handed-down bits clear |
| `PageAttributes.SplitLosesPage` | IA32FamilyCpuPkg/CpuArchDxe/CpuPageTable.c:498-558 | a well-formed table with a 2M page of frame 0 at 2MB, not present: any request for its last 4KB endangers, and so loses, its first |
| `PageAttributes.SplitFailsCall` | IA32FamilyCpuPkg/CpuArchDxe/CpuPageTable.c:668-708 | the same table: a request for the first 4KB of that page alone does not meet the condition for success, though the page is mapped, as its split makes a hole there |
| `PageAttributes.ConvertKeepsIff` | IA32FamilyCpuPkg/CpuArchDxe/CpuPageTable.c:368-451 | in any table, rewriting a leaf changes its pages as requested and no others if and only if the new entry is not all zero, or is that of page 0 |
| `PageAttributes.ConvertSofar` | IA32FamilyCpuPkg/CpuArchDxe/CpuPageTable.c:675-686 | converting an aligned leaf rewrites exactly its pages; every other page keeps its account of splits and rewriting |
| `PageAttributes.SplitSofar` | IA32FamilyCpuPkg/CpuArchDxe/CpuPageTable.c:687-704 | a split hands each page its piece of the leaf, and leaves of 2MB are split only where the range begins or ends |
| `PageAttributes.LostIs` | IA32FamilyCpuPkg/CpuArchDxe/CpuPageTable.c:324-324 | a page is lost exactly if it ends up in a 4KB page, is not page 0, and is to have frame 0 with P, RW and NX clear and no other bit in its entry |
| `PageAttributes.ConvertLosesPage` | IA32FamilyCpuPkg/CpuArchDxe/CpuPageTable.c:368-451 | a well-formed table with a writable 4K page of frame 0 at 2MB: assigning RP and RO to it endangers, and so loses, it |
| `PageAttributes.SplitSplits` | IA32FamilyCpuPkg/CpuArchDxe/CpuPageTable.c:510-540 | each split is exactly one of those still needed for the range to begin and end between leaves, and lowers the level at the base |
| `PageAttributes.SplitsBound` | IA32FamilyCpuPkg/CpuArchDxe/CpuPageTable.c:668-706 | at most four leaves have to be split for any range |
| `PageAttributes.NoSplitIff` | IA32FamilyCpuPkg/CpuArchDxe/CpuPageTable.c:463-484 | none has to be split if and only if the range begins where its first leaf does and ends where its last leaf ends |
| `PageAttributes.FourPagesAreEnough` | IA32FamilyCpuPkg/CpuArchDxe/CpuPageTable.c:668-706 | so a range that cuts no leaf needs no page, and with four pages to give any range can be split |
| `PageAttributes.ConvertSplits` | IA32FamilyCpuPkg/CpuArchDxe/CpuPageTable.c:685-686 | converting a leaf leaves the splits to come as they were |
| `PageAttributes.ConvertsNoHole` | IA32FamilyCpuPkg/CpuArchDxe/CpuPageTable.c:670-673 | a leaf that is found and converted is not one that a split at the end of the range has turned into a hole |
| `PageAttributes.NextLeafIsAligned` | IA32FamilyCpuPkg/CpuArchDxe/CpuPageTable.c:685-686 | after a converted leaf the next leaf begins at the new base, so only the ends of the range need splits |
| `PageAttributes.PageTable.Turn` | IA32FamilyCpuPkg/CpuArchDxe/CpuPageTable.c:669-705 | one turn of the loop converts a whole leaf, or splits one, or gives up with nothing changed for a stated reason |
| `PageAttributes.PageTable.ConvertPages` | IA32FamilyCpuPkg/CpuArchDxe/CpuPageTable.c:668-708 | the loop ends, has converted exactly a prefix of the range, all of it on success, and has made exactly the splits counted off |
| `PageAttributes.SofarMeans` | IA32FamilyCpuPkg/CpuArchDxe/CpuPageTable.c:668-708 | in any table without shared tables: every page reads as asked or is lost, a lost page was endangered, and when the range is converted exactly the endangered pages are lost, which are told from the table and the request before the call |
| `PageAttributes.PageTable.ConvertMemoryPageAttributes` | IA32FamilyCpuPkg/CpuArchDxe/CpuPageTable.c:589-709 | in any table without shared tables: a base or length off 4KB, another attribute bit, a table without PAE or none at all while attributes are asked for are unsupported, length 0 is invalid, and these change nothing. Every other call converts: it succeeds if and only if every page of the range is mapped, no split makes a hole in the range, and the pages to give are as many as the leaves that have to be split; on success it takes exactly these; exactly the pages of the range, or on failure a prefix, read back changed, but for lost pages, which are endangered ones, and on success all of these; the flag for a change is set if and only if the table changed |
| `PageAttributes.AtRiskIff` | IA32FamilyCpuPkg/CpuArchDxe/CpuPageTable.c:324-324 | some request endangers a page if and only if it is not page 0, has frame 0, and its entry has no bit that an edit leaves alone: so a table serves all requests exactly if it has no such page |
| `PageAttributes.AssignReadsBack` | IA32FamilyCpuPkg/CpuArchDxe/CpuPageTable.c:740-766 | after an assignment the pages of the range that are not lost read back exactly the attributes asked for, frames stay, and identity-mapped pages are not lost and stay so |
| `PageAttributes.SetReadsBack` | IA32FamilyCpuPkg/CpuArchDxe/CpuPageTable.c:368-451 | after setting attributes they read back those they had and those asked for |
| `PageAttributes.ClearReadsBack` | IA32FamilyCpuPkg/CpuArchDxe/CpuPageTable.c:368-451 | after clearing them, those they had and not those asked for |
| `PagingTree.AttachTree` | IA32FamilyCpuPkg/PiSmmCpuDxeSmm/X64/PageTbl.c:609-609 | a new table takes an empty place; counts stay exact but for the ones the walk is about to correct |
| `PagingTree.FillTree` | IA32FamilyCpuPkg/PiSmmCpuDxeSmm/X64/PageTbl.c:638-639 | a filled leaf is one present entry more in its table |
| `PagingTree.DropTree` | IA32FamilyCpuPkg/PiSmmCpuDxeSmm/X64/PageTbl.c:422-423 | a released table leaves a tree without it, one entry short above |
| `PagingTree.DropView` | IA32FamilyCpuPkg/PiSmmCpuDxeSmm/X64/PageTbl.c:422-423 | releasing a table takes away the translations of its pages and no others |
| `PageReclaim.CandidateIsEligible` | IA32FamilyCpuPkg/PiSmmCpuDxeSmm/X64/PageTbl.c:312-413 | every entry the scan considers leads to a table that leads nowhere and is not the masked one |
| `PageReclaim.CandidateIff` | IA32FamilyCpuPkg/PiSmmCpuDxeSmm/X64/PageTbl.c:312-413 | the entries considered, entry by entry: those of a page directory that are present, not masked and not a 2MB page, and those above whose table has nothing masked and nothing present that leads further down; reached through entries that are present, not masked and lead on |
| `PageReclaim.CandidatesInOrder` | IA32FamilyCpuPkg/PiSmmCpuDxeSmm/X64/PageTbl.c:312-413 | they are considered by their indices from the top, what is in a table before the entry that leads to the table |
| `PageReclaim.SomeCandidate` | IA32FamilyCpuPkg/PiSmmCpuDxeSmm/X64/PageTbl.c:417-417 | with any dynamic page in the tree the ASSERT that something is selected holds |
| `PageReclaim.PickIsFirstLeast` | IA32FamilyCpuPkg/PiSmmCpuDxeSmm/X64/PageTbl.c:361-373 | though the scan ages the entries as it goes, the choice is the first candidate of least rank in the table as it was |
| `PageReclaim.FirstLeastIs` | IA32FamilyCpuPkg/PiSmmCpuDxeSmm/X64/PageTbl.c:250-265 | that is: if some candidate has its accessed bit clear, the one chosen has, its access record is the least of those, and it is the first such; if all have it set, it is the first candidate |
| `PageReclaim.AgeAllAt` | IA32FamilyCpuPkg/PiSmmCpuDxeSmm/X64/PageTbl.c:250-265 | the scan leaves each candidate whose accessed bit was set with the bit clear and record 7, and takes one from the record of each other, down to 0 |
| `PageReclaim.ReclaimAges` | IA32FamilyCpuPkg/PiSmmCpuDxeSmm/X64/PageTbl.c:278-481 | after ReclaimPages every entry still present has the accessed bit and record that this leaves, if it was a candidate, and otherwise those it had |
| `PageReclaim.ClimbKeeps` | IA32FamilyCpuPkg/PiSmmCpuDxeSmm/X64/PageTbl.c:429-480 | the climb releases exactly the tables left empty, corrects the first count that is left, and changes no translation |
| `PageReclaim.ReclaimKeeps` | IA32FamilyCpuPkg/PiSmmCpuDxeSmm/X64/PageTbl.c:278-481 | ReclaimPages takes the candidate least recently used, by accessed bits and records, the first in the order of the scan; it ages the others, moves one to three pages from tree to pool, none lost or doubled, keeps every masked entry, and removes the translations under the chosen entry only; counts stay right, also in the middle of a walk, where those of the walked tables are still to be corrected, if none of these is released |
| `DemandPaging.Pager.SmmInitPageTable` | IA32FamilyCpuPkg/PiSmmCpuDxeSmm/X64/PageTbl.c:104-155 | initialisation leaves a well-formed tree, eight pages in the pool and the first four entries masked |
| `DemandPaging.Pager.Consider` | IA32FamilyCpuPkg/PiSmmCpuDxeSmm/X64/PageTbl.c:242-266 | aging an entry and comparing its rank is one step of the scan, which AgeAllAt and FirstLeastIs describe |
| `DemandPaging.Pager.FindVictim` | IA32FamilyCpuPkg/PiSmmCpuDxeSmm/X64/PageTbl.c:312-413 | the nested loops age all candidates and choose as the scan in order does |
| `DemandPaging.Pager.Release` | IA32FamilyCpuPkg/PiSmmCpuDxeSmm/X64/PageTbl.c:429-480 | the while loop climbs as specified |
| `DemandPaging.Pager.ReclaimPages` | IA32FamilyCpuPkg/PiSmmCpuDxeSmm/X64/PageTbl.c:278-481 | the whole of ReclaimPages: the entry released is the first of the candidates least recently used, the marks of all others are aged, exactly the translations under it are gone, and the tree is well formed again |
| `DemandPaging.Pager.AllocPage` | IA32FamilyCpuPkg/PiSmmCpuDxeSmm/X64/PageTbl.c:490-513 | a page leaves the pool, after a reclaim if the pool was empty |
| `DemandPaging.DownStep` | IA32FamilyCpuPkg/PiSmmCpuDxeSmm/X64/PageTbl.c:603-623 | one level of the walk, with a reclaim if the pool is empty and the reclaim spares the way: it keeps the tree, loses no page, and takes translations away under the entry reclaimed only |
| `DemandPaging.ReclaimOnWay` | IA32FamilyCpuPkg/PiSmmCpuDxeSmm/X64/PageTbl.c:605-609 | after a reclaim in the middle of a walk that spares its way the walk stands in the tree where it stood, with the same counts pending |
| `DemandPaging.FinishKeeps` | IA32FamilyCpuPkg/PiSmmCpuDxeSmm/X64/PageTbl.c:625-642 | filling the leaf and bumping only the deepest entry that existed before makes every count exact again and maps exactly that page |
| `DemandPaging.MapOneKeeps` | IA32FamilyCpuPkg/PiSmmCpuDxeSmm/X64/PageTbl.c:600-647 | serving a page, with reclaims on the way that spare the walk: exact counts, pool plus tree as before, the page mapped to itself, translations lost under the entries reclaimed and nowhere else |
| `DemandPaging.ClearIffUntranslated` | IA32FamilyCpuPkg/PiSmmCpuDxeSmm/X64/PageTbl.c:625-634 | the place of a leaf is free, as the ASSERT wants it, exactly when no page under it translates |
| `DemandPaging.AllKeeps` | IA32FamilyCpuPkg/PiSmmCpuDxeSmm/X64/PageTbl.c:600-647 | over a whole request: nothing stops it, no page is lost, and every page reads as the request and the entries reclaimed in its course say |
| `DemandPaging.Pager.ServePages` | IA32FamilyCpuPkg/PiSmmCpuDxeSmm/X64/PageTbl.c:600-647 | the loop, with the reclaims inside its walks, serves the pages as specified, one after the other |
| `DemandPaging.Pager.SmiDefaultPFHandler` | IA32FamilyCpuPkg/PiSmmCpuDxeSmm/X64/PageTbl.c:520-648 | without an answer of the platform the one 2MB page of the fault is mapped to itself, writable, and execute-disabled where that is on; with one, as many pages as it says, at most 512, of its size or else 2MB, with its attributes; translations are lost under the entries reclaimed and nowhere else; the tree is well formed again and no page is lost |
| `DemandPaging.ServedReads` | IA32FamilyCpuPkg/PiSmmCpuDxeSmm/X64/PageTbl.c:638-639 | a page served reads as the 4KB, 2MB or 1GB page of its own address, with the attributes asked for and RW |
| `ReclaimInWalk.WayIsMarked` | IA32FamilyCpuPkg/PiSmmCpuDxeSmm/X64/PageTbl.c:605-623 | serving a page without a reclaim leaves every entry on the way to it, found or new, with the accessed bit set and record 7 |
| `ReclaimInWalk.PlentyMaps` | IA32FamilyCpuPkg/PiSmmCpuDxeSmm/X64/PageTbl.c:600-647 | with as many pages in the pool as tables are missing, and with six in any case, no reclaim takes place: exactly the pages asked for are mapped and no translation is lost |
| `ReclaimInWalk.ReclaimLinked` | IA32FamilyCpuPkg/PiSmmCpuDxeSmm/X64/PageTbl.c:278-481 | whatever the counts say, ReclaimPages leaves the tables a tree without sharing, apart from the pool, and frees a page where there is a candidate |
| `ReclaimInWalk.MappedIffSpared` | IA32FamilyCpuPkg/PiSmmCpuDxeSmm/X64/PageTbl.c:600-647 | the page asked for is mapped if and only if no reclaim on the way releases a table that the walk is in; else it does not translate at all |
| `WalkMishap.PageIsLost` | IA32FamilyCpuPkg/PiSmmCpuDxeSmm/X64/PageTbl.c:600-647 | six requests after initialisation have used up the pool; the seventh, for another 2MB under the page directory of the first, loses that directory in mid-walk and its page is not mapped |
| `ServedTwice.AgainOne` | IA32FamilyCpuPkg/PiSmmCpuDxeSmm/X64/PageTbl.c:600-647 | a page that is mapped already is served again, the ASSERT compiled out: no translation and no pool page changes, and the entry above the leaf's table counts one entry too many |
| `ServedTwice.AgainAll` | IA32FamilyCpuPkg/PiSmmCpuDxeSmm/X64/PageTbl.c:600-647 | a whole request served again: the loop runs through, no translation and no pool page changes, and counts are ahead of the tables at most |
| `ServedTwice.AheadIsKept` | IA32FamilyCpuPkg/PiSmmCpuDxeSmm/X64/PageTbl.c:429-480 | where a count is ahead by more than the release below it the climb stops there: it releases no table and changes no translation |
| `PagePolicy.SmrrWholeBlocks` | IA32FamilyCpuPkg/PiSmmCpuDxeSmm/SmmProfile.c:286-332 | outside profile mode the policy is constant on every block left whole exactly unless the SMRR is smaller than 2MB and at address 0 |
| `PagePolicy.SplitOfCovers` | IA32FamilyCpuPkg/PiSmmCpuDxeSmm/SmmProfile.c:417-460 | a block without split ranges of a protected range is inside the range or apart from it |
| `PagePolicy.SplitRangesIff` | IA32FamilyCpuPkg/PiSmmCpuDxeSmm/SmmProfile.c:405-462 | a 2MB block lies in a split range if and only if some protected range begins or ends inside it |
| `PagePolicy.SplitCount` | IA32FamilyCpuPkg/PiSmmCpuDxeSmm/SmmProfile.c:417-460 | a protected range needs no split range, two or one: none if it is aligned to 2MB at both ends, two if it is at neither and holds a whole 2MB block |
| `PagePolicy.ProfileWholeBlock` | IA32FamilyCpuPkg/PiSmmCpuDxeSmm/SmmProfile.c:272-314 | in profile mode the policy is constant on every block the split ranges leave whole |
| `PagePolicy.RoomIff` | IA32FamilyCpuPkg/PiSmmCpuDxeSmm/SmmProfile.c:372-460 | the split ranges fit the room allocated for them if and only if, with MMIO, no more ranges need two than need none, and without MMIO all template ranges are aligned |
| `PagePolicy.RoomCanRunOut` | IA32FamilyCpuPkg/PiSmmCpuDxeSmm/SmmProfile.c:372-460 | the template of an 8MB SMRAM with unaligned profile data and one MMIO range needs four slots and gets three; without MMIO it needs two and gets none |
| `PagePolicy.PagingFollowsPolicy` | IA32FamilyCpuPkg/PiSmmCpuDxeSmm/SmmProfile.c:520-641 | after both passes each mapped page is present and execute-disabled exactly as the policy says for the address the code computes, and maps what it did |
| `PagePolicy.PagingExact` | IA32FamilyCpuPkg/PiSmmCpuDxeSmm/SmmProfile.c:520-641 | below 512GB that is the page's own address |
| `PagePolicy.PagingOwnAddress` | IA32FamilyCpuPkg/PiSmmCpuDxeSmm/SmmProfile.c:550-637 | at any address, a page follows the policy of its own address exactly when the policy says the same for the address computed |
| `PagePolicy.Above512GB` | IA32FamilyCpuPkg/PiSmmCpuDxeSmm/SmmProfile.c:609-609 | above 512GB, outside profile mode, a mapped page does so exactly unless execute-disable is supported and the address computed lies in the SMRR |
| `PagePolicy.Above512GBProfile` | IA32FamilyCpuPkg/PiSmmCpuDxeSmm/SmmProfile.c:609-609 | above 512GB, in profile mode, exactly unless the first matching range says otherwise at the address computed of presence or, where it is supported, of execute-disable |
| `PagePolicy.AssertAbove512GB` | IA32FamilyCpuPkg/PiSmmCpuDxeSmm/SmmProfile.c:550-559 | above 512GB the ASSERT on the address of a block to be split holds exactly where no split is asked for |
| `PagePolicy.Above512GBDiffers` | IA32FamilyCpuPkg/PiSmmCpuDxeSmm/SmmProfile.c:609-609 | with SMRAM at 2MB the page at 512GB + 2MB does not follow the policy of its own address |
| `PagePolicy.SmmProfile.IsAddressValid` | IA32FamilyCpuPkg/PiSmmCpuDxeSmm/SmmProfile.c:264-293 | in profile mode an address in no protected range is absent and execute-disabled, and otherwise the first range that holds it decides; outside profile mode all addresses are present, and execute-disabled exactly outside the SMRR |
| `PagePolicy.SmmProfile.IsAddressSplit` | IA32FamilyCpuPkg/PiSmmCpuDxeSmm/SmmProfile.c:301-332 | the answer is whether some split range holds the address, or else, outside profile mode, whether an SMRR boundary is less than 2MB above it |
| `PagePolicy.SmmProfile.InitProtectedMemRange` | IA32FamilyCpuPkg/PiSmmCpuDxeSmm/SmmProfile.c:338-463 | where they fit, the protected ranges are those of the template and then one for each MMIO descriptor, present and execute-disabled, and the split ranges are those they make necessary, written in bounds |
| `PagePolicy.MmioIs` | IA32FamilyCpuPkg/PiSmmCpuDxeSmm/SmmProfile.c:264-293 | with these ranges, an address in none of the template's is present and execute-disabled in an MMIO range, and absent in none |
| `PagePolicy.SmmProfile.InitPaging` | IA32FamilyCpuPkg/PiSmmCpuDxeSmm/SmmProfile.c:481-653 | both passes reach exactly the present part of the table; each block is split, then patched, and each of its mapped pages follows the policy |
| `PagePolicy.PolicyFits` | IA32FamilyCpuPkg/PiSmmCpuDxeSmm/SmmProfile.c:286-332 | the policy that start-up leaves is constant on every block left whole always in profile mode, and otherwise exactly unless the SMRR is smaller than 2MB and at address 0 |
| `PagePolicy.SmmProfile.InitSmmProfileAndPaging` | IA32FamilyCpuPkg/PiSmmCpuDxeSmm/PiSmmCpuDxeSmm.c:1980-1990 | from the setting up of the ranges to the patched table: in profile mode always, and otherwise unless the SMRR is smaller than 2MB and at address 0, every mapped page follows the policy. In profile mode with execute-disable, each page mapped below 512GB outside the template's ranges is present and execute-disabled in an MMIO range and absent elsewhere; and exactly the blocks in which a range begins or ends become tables of 4KB pages |
| `ProfileTrap.RecordedOnce` | IA32FamilyCpuPkg/PiSmmCpuDxeSmm/SmmProfile.c:1183-1188 | over every history in which no CPU is denied at a slot while another is pending there, no slot has two records to be put back, and each holds the closed value |
| `ProfileTrap.ClosedAgain` | IA32FamilyCpuPkg/PiSmmCpuDxeSmm/SmmProfile.c:234-244 | in such a history, with nothing recorded and nobody in the handler, every entry is the closed one exactly if it was never served by a CPU with full records |
| `ProfileTrap.NothingLeaks` | IA32FamilyCpuPkg/PiSmmCpuDxeSmm/SmmProfile.c:1183-1188 | in such a history, with nothing recorded and nobody in the handler, the table is the closed one if and only if no CPU ever found its records full |
| `ProfileTrap.LoneStep` | IA32FamilyCpuPkg/PiSmmCpuDxeSmm/SmmProfile.c:1142-1234 | every event of every CPU, down to the single reads and stores of the handler, keeps what is known of a slot at which one CPU at a time is pending |
| `ProfileTrap.LayoutStep` | IA32FamilyCpuPkg/PiSmmCpuDxeSmm/SmmProfile.c:1169-1175 | in all histories the page size bits stay right but for the entry that a CPU inside the lock is setting, so that the handler finds the leaf that denied the access |
| `ProfileTrap.RecordedOnceIff` | IA32FamilyCpuPkg/PiSmmCpuDxeSmm/SmmProfile.c:1183-1188 | over every history, at a slot where no records are full: each record of the slot is the only one and holds the closed value, at all times, if and only if no CPU is served there while the slot is recorded |
| `ProfileTrap.RecordedRightIff` | IA32FamilyCpuPkg/PiSmmCpuDxeSmm/SmmProfile.c:1183-1188 | over every history, full records or not: exactly if each CPU that records the slot finds it recorded by nobody and closed |
| `ProfileTrap.ClosedAgainIff` | IA32FamilyCpuPkg/PiSmmCpuDxeSmm/SmmProfile.c:234-244 | over every history, with nothing recorded: an entry is the closed one if and only if it was never stored to or the CPU that put it back last had found it closed; a handler has the last word only where records were full |
| `ProfileTrap.RecordedTwice` | IA32FamilyCpuPkg/PiSmmCpuDxeSmm/X64/PageTbl.c:669-705 | two CPUs denied at one entry before either holds the lock: both record it, one of them open; it stays open or is closed, depending on the order of their traps |
| `ProfileTrap.EleventhFaultLeaks` | IA32FamilyCpuPkg/PiSmmCpuDxeSmm/SmmProfile.c:1183-1188 | a history of eleven faults of one CPU between two traps, of which the last finds its records full |
| `ProfileTrap.ServedAlone` | IA32FamilyCpuPkg/PiSmmCpuDxeSmm/SmmProfile.c:1142-1234 | undisturbed, the reads and stores of a service come to the entry recorded, if there is room, and open |
| `ProfileTrap.FaultIs` | IA32FamilyCpuPkg/PiSmmCpuDxeSmm/SmmProfile.c:1142-1234 | that is: the page of the address, of 2MB or 4KB, is mapped to itself, present, writable and executable, the access is no longer denied, and the entry as it was is the CPU's next record if it has fewer than ten |
| `ProfileTrap.SmmProfileTrap.RestorePageTableBelow4G` | IA32FamilyCpuPkg/PiSmmCpuDxeSmm/SmmProfile.c:1142-1234 | the handler run on its own records the entry, if there is room, and leaves the page of the address mapped to itself, present, writable and executable |
| `ProfileTrap.SmmProfileTrap.DebugExceptionHandler` | IA32FamilyCpuPkg/PiSmmCpuDxeSmm/SmmProfile.c:220-252 | the handler is the sequence of trap steps; at its end each recorded slot holds the value of its last record, all others are as they were, and no record is left |
| `MtrrGcd.Gcd.SearchGcdMemorySpaces` | IA32FamilyCpuPkg/CpuArchDxe/MemoryAttribute.c:166-193 | on a sorted gapless map the descriptors of the first and last address are found exactly when the range lies within the map |
| `MtrrGcd.Piece` | IA32FamilyCpuPkg/CpuArchDxe/MemoryAttribute.c:243-252 | the piece of a range in a descriptor is the descriptor cut to the range |
| `MtrrGcd.Gcd.SetGcdMemorySpaceAttributes` | IA32FamilyCpuPkg/CpuArchDxe/MemoryAttribute.c:209-271 | exactly the existing addresses of the range get the attribute, masked by their descriptor's capabilities; none if the range leaves the map |
| `MtrrGcd.TileNext` | IA32FamilyCpuPkg/CpuArchDxe/MemoryAttribute.c:30-86 | the 88 sub-ranges of the fixed MTRRs tile the first megabyte |
| `MtrrGcd.MergedRun` | IA32FamilyCpuPkg/CpuArchDxe/MemoryAttribute.c:402-426 | setting a run of neighbouring sub-ranges of one type at once equals setting them one by one |
| `MtrrGcd.Gcd.LayFixed` | IA32FamilyCpuPkg/CpuArchDxe/MemoryAttribute.c:397-439 | the merging loop equals laying all 88 sub-ranges separately |
| `MtrrGcd.Gcd.LayVariable` | IA32FamilyCpuPkg/CpuArchDxe/MemoryAttribute.c:349-392 | each loop over the variable MTRRs lays those of its types in order; TypeDecides says what that comes to |
| `MtrrGcd.Gcd.RefreshGcdMemoryAttributes` | IA32FamilyCpuPkg/CpuArchDxe/MemoryAttribute.c:280-448 | which memory type an existing address ends up with: below 1MB that of its fixed sub-range; from there on type 0 if any valid variable MTRR within the map that holds it has that, else the type of the last of them that is not 6, else 6 if there is one, else the default type; its attributes are the old ones without cache types and what its descriptor can do of that type |
| `MtrrGcd.TypeDecides` | IA32FamilyCpuPkg/CpuArchDxe/MemoryAttribute.c:99-125 | the layers laid one over the other, in the order default, WB, other, UC, fixed, come to that type, by number: 0 UC, 1 WC, 4 WT, 5 WP, 6 WB |
| `MtrrGcd.PassGives` | IA32FamilyCpuPkg/CpuArchDxe/MemoryAttribute.c:349-392 | a loop over the variable MTRRs leaves an address the type of the last of its MTRRs that holds it |
| `MtrrGcd.FixedGives` | IA32FamilyCpuPkg/CpuArchDxe/MemoryAttribute.c:397-439 | the fixed MTRRs leave each existing address below 1MB the type of its sub-range |
| `StackGuard.NextGuard` | IA32FamilyCpuPkg/PiSmmCpuDxeSmm/MpService.c:844-852 | an address is a guard page exactly if it is the next one pending |
| `StackGuard.GuardedIs` | IA32FamilyCpuPkg/PiSmmCpuDxeSmm/MpService.c:833-852 | the guard pages are exactly the second pages of the stacks, one page above the base of each |
| `StackGuard.PagesNeededIs` | IA32FamilyCpuPkg/PiSmmCpuDxeSmm/MpService.c:795-800 | there is one page table for each 2MB block from that of the first guard page to that of the last |
| `StackGuard.HighBlockIs` | IA32FamilyCpuPkg/PiSmmCpuDxeSmm/MpService.c:799-800 | the last block with a page table is that of the last guard page |
| `StackGuard.Gen4G.GuardBlocks` | IA32FamilyCpuPkg/PiSmmCpuDxeSmm/MpService.c:831-860 | the page tables written are the allocated ones, and every page of a guarded block is present unless it is a guard page |
| `StackGuard.Gen4GPageTable` | IA32FamilyCpuPkg/PiSmmCpuDxeSmm/MpService.c:771-863 | all of 4GB maps to itself, present except, where the guard is on, exactly the second page of every stack; the page tables are one for each 2MB from the first such page to the last |
| `MsrLocks.CarvedWell` | IA32FamilyCpuPkg/PiSmmCpuDxeSmm/CpuS3.c:151-156 | locks carved from a new area overlap no other lock and stay inside the area |
| `MsrLocks.AddedWell` | IA32FamilyCpuPkg/PiSmmCpuDxeSmm/CpuS3.c:132-134 | a new MSR takes the first free lock and disturbs no other |
| `MsrLocks.MsrLockTable.GetMsrSpinLockByIndex` | IA32FamilyCpuPkg/PiSmmCpuDxeSmm/CpuS3.c:86-99 | the lock returned is that of the first entry for the MSR |
| `MsrLocks.MsrLockTable.InitMsrSpinLockByIndex` | IA32FamilyCpuPkg/PiSmmCpuDxeSmm/CpuS3.c:106-159 | the MSR has a lock afterwards, every MSR keeps the lock it had, locks stay apart and in bounds, and a free slot remains |
| `MsrLocks.MsrLockTable.CopyRegisterTable` | IA32FamilyCpuPkg/PiSmmCpuDxeSmm/PiSmmCpuDxeSmm.c:1257-1278 | an MSR has a lock afterwards if and only if it had one, or a copied table has an entry of type MSR for it with a valid length below 64; each such entry finds it, and one lock is used for each new MSR |
| `HotPlug.AddKeeps` | IA32FamilyCpuPkg/PiSmmCpuDxeSmm/CpuService.c:255-303 | an addition keeps ids distinct and the corrected count right, unless the removal of the slot is still to be retired: then the count will be one too high |
| `HotPlug.RefilledTooEarly` | IA32FamilyCpuPkg/PiSmmCpuDxeSmm/CpuService.c:255-303 | a history in which a slot is refilled before its removal is retired: the update then counts three processors where there are two |
| `HotPlug.RemoveKeeps` | IA32FamilyCpuPkg/PiSmmCpuDxeSmm/CpuService.c:322-356 | a removal keeps the corrected count as far from the number of processors as it was |
| `HotPlug.SwitchBspKeeps` | IA32FamilyCpuPkg/PiSmmCpuDxeSmm/CpuService.c:212-240 | so does a request for a new BSP |
| `HotPlug.UpdateSettles` | IA32FamilyCpuPkg/PiSmmCpuDxeSmm/CpuService.c:406-443 | after the update nothing is pending and the count is the number of processors, but for that difference |
| `HotPlug.HistoryKeeps` | IA32FamilyCpuPkg/PiSmmCpuDxeSmm/CpuService.c:212-443 | over any history ids stay distinct, and the corrected count, which the next update sets, is the number of processors if and only if no slot was refilled before its removal was retired |
| `HotPlug.HistoryExcess` | IA32FamilyCpuPkg/PiSmmCpuDxeSmm/CpuService.c:212-443 | over any history the count is too high by the number of slots refilled too early |
| `HotPlug.SmmCpuService.SmmAddProcessor` | IA32FamilyCpuPkg/PiSmmCpuDxeSmm/CpuService.c:255-303 | statuses and new state of an addition |
| `HotPlug.SmmCpuService.SmmRemoveProcessor` | IA32FamilyCpuPkg/PiSmmCpuDxeSmm/CpuService.c:322-356 | statuses and new state of a removal |
| `HotPlug.SmmCpuService.SmmSwitchBsp` | IA32FamilyCpuPkg/PiSmmCpuDxeSmm/CpuService.c:212-240 | statuses and new state of a BSP request |
| `HotPlug.SmmCpuService.SmmCpuUpdate` | IA32FamilyCpuPkg/PiSmmCpuDxeSmm/CpuService.c:406-443 | the three loops retire everything pending and correct the count by what was pending |
| `HotPlug.AddDoes` | IA32FamilyCpuPkg/PiSmmCpuDxeSmm/CpuService.c:255-303 | a processor is added if and only if hot plug is supported, its id is a proper one, nobody has it and a free slot is reserved for it, and then to the first such slot; otherwise the status says which of these fails and nothing changes |
| `HotPlug.RemoveDoes` | IA32FamilyCpuPkg/PiSmmCpuDxeSmm/CpuService.c:322-356 | a processor is removed if and only if hot plug is supported, it is there, is not the executing one and has nothing pending; otherwise the status says why and nothing changes |
| `HotPlug.SwitchBspDoes` | IA32FamilyCpuPkg/PiSmmCpuDxeSmm/CpuService.c:212-240 | a request for a new BSP is granted for any other processor than the executing one with nothing pending; the update after it marks exactly that one and those requested before as candidates, and asks for the switch |
| `SmramMerge.FindLargest` | IA32FamilyCpuPkg/PiSmmCpuDxeSmm/PiSmmCpuDxeSmm.c:1905-1924 | the range chosen is the largest of those that are usable, lie between 1MB and 4GB and hold 256KB less a page, the last of its size, and there is none exactly if no range qualifies |
| `SmramMerge.GrownKeeps` | IA32FamilyCpuPkg/PiSmmCpuDxeSmm/PiSmmCpuDxeSmm.c:1931-1940 | where no chain of ranges wraps, each merge extends the range by one that adjoins it |
| `SmramMerge.WrapMerges` | IA32FamilyCpuPkg/PiSmmCpuDxeSmm/PiSmmCpuDxeSmm.c:1926-1941 | two disjoint ranges, one that ends at 4GB and one at address 0: the loop ends with a region beyond 4GB |
| `SmramMerge.WrapForever` | IA32FamilyCpuPkg/PiSmmCpuDxeSmm/PiSmmCpuDxeSmm.c:1926-1941 | two disjoint ranges that fill all of 4GB: the loop does not end |
| `SmramMerge.RegionIff` | IA32FamilyCpuPkg/PiSmmCpuDxeSmm/PiSmmCpuDxeSmm.c:1926-1941 | for disjoint ranges the loop can end at a contiguous union below 4GB around the chosen range if and only if no chain of adjoining ranges from it goes beyond 4GB, or up to 4GB while a range is at 0 |
| `SmramMerge.Merge` | IA32FamilyCpuPkg/PiSmmCpuDxeSmm/PiSmmCpuDxeSmm.c:1926-1941 | the loop ends with the union of the chosen range and some others, contiguous and below 4GB, and no range adjoins it |
| `SmramMerge.FindSmramInfo` | IA32FamilyCpuPkg/PiSmmCpuDxeSmm/PiSmmCpuDxeSmm.c:1865-1955 | the region is the union of the largest usable range and some others, with no range below 4GB adjoining it; the IED, where enabled, starts at its end and is added to the size |

## Left out

- RendezvousSafety.StepKeepsInv: assumes that no AP gives up waiting for the BSP (MpService.c:598-638), because an AP that gives up takes back its count without regard to the lockdown.
- RendezvousTheorems.RunEndsQuiet: assumes that no SMI is counted between the BSP's last two writes (MpService.c:565-566), because such a CPU would be counted in a run that is still marked in sync.
- RendezvousPolling.EveryScheduleEnds: counts neither new SMIs nor new procedures.
- The BSP's own arrival timeout is free to fire at any time: waiting for arrivals (MpService.c:217-286) makes no step of its own.
- BSP election by the platform hook, and the variant without election: the default compare-exchange election is modelled, and whether a CPU is a candidate is left open.
- The BSP may make a blocking call after the drain loop (PerformRemainingTasks); what else that function does is not modelled.
- MTRR, SMRR, XD and debug register accesses, IPIs, TLB flushes and hooks are no-ops; PlatformValidSmi reads one SMI status flag that any new SMI sets.
- PageAttributes.PageTable.ConvertMemoryPageAttributes: asks that the range lie within the addresses the table translates; beyond them the code's index masks alias lower addresses.
- PageAttributes.SplitFlat: frames and RP, RO and XP read at the leaf; cache bits, which splits drop, and the stricter rights that a split parent keeps in hardware are not part of the map.
- GetCurrentPagingContext, TLB flushing and the synchronisation of APs after a change.
- DemandPaging.Pager.SmiDefaultPFHandler: asks that no reclaim on the way release a table of the walk, and that nothing be mapped there yet, as the ASSERT does. MappedIffSpared and AgainAll say what happens otherwise, but not what the stray writes after a reclaim leave in pages of the pool.
- DemandPaging.Pager.AllocPage: zeroing a page and linking free pages through their own memory are not modelled; a released page is simply no table any more.
- Fault addresses wider than the physical address mask; the spin lock around the handler; stack overflow and code-outside-SMM checks of SmiPFHandler.
- PagePolicy.PagingFollowsPolicy: asks for tables without 1GB leaves and without NX bits, as the drivers build them; 64-bit address arithmetic on range ends is unbounded.
- PagePolicy.SmmProfile.InitProtectedMemRange: asks that the split ranges fit the room allocated for them, by the condition of RoomIff.
- ProfileTrap.RecordedOnce: an access is denied by the entry as it is at that moment (coherent TLB), and a CPU waits for the lock with nothing else in between; faults above 4GB, the profile log and the branch trace store are not modelled.
- MtrrGcd.Gcd.RefreshGcdMemoryAttributes: asks for a sorted gapless map from address 0 that covers the first megabyte; decoding the MTRR registers is not modelled, and the GCD service is taken to succeed.
- StackGuard.Gen4GPageTable: sizes and addresses below 4GB; SetCacheability and the extra pages in front of the table are not modelled.
- MsrLocks.MsrLockTable.InitMsrSpinLockByIndex: allocation gives pages apart from all areas in use, and there are enough of them for the MSRs that are new; the lock operations themselves are not modelled.
- SmramMerge.Merge: asks that no chain of adjoining ranges from the chosen one wrap, by the condition of RegionIff. The final alignment check, which halts the CPU, is not modelled.
- HotPlug: processor locations, and who reserves a slot for a processor, are left to the environment; the count is an unbounded integer.
- RestorePageTableAbove4G and AcquirePage, S3 startup vectors, save-state registers, GDT, TSS and IDT setup, ACPI tables, PiSmmCommunication, the HII library and debug output: easy next to the rest, or wrappers around code not shown.
