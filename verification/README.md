# Verified model of the Radeon 9200 Picasso96 and 3D driver

This project models the logic of an AmigaOS chip driver for the RV280: the
command-processor ring and its fences, the shared 3D submission service, the 2D
engine front end, private video memory and the PLL arithmetic.  It proves what that
logic promises on every input and over every run.  The card is an environment: a
register file, ring pointers, a scratch register and a pixel memory.

How the parts fit together:

- `cp_ring.dfy` is the ring itself.  A `Ring` object holds the byte-swapped memory and
  a history of everything submitted; the processor may run between any two accesses.
- `board.dfy` holds the board transitions under BoardLock as functions of the state
  and of an oracle for what the hardware answers.  `board_fences.dfy`,
  `board_exclusion.dfy`, `board_drains.dfy` and `board_lease.dfy` prove properties of
  all runs of those transitions.  `board_effects.dfy` says what each means to its
  caller, and `board_driver.dfy` has them as methods that update fields and promise
  just that.
- `sessions.dfy` is the two-lock session protocol with one program counter per thread;
  `session_safety.dfy` proves what every interleaving keeps, `session_progress.dfy`
  what a caller that nobody holds up achieves.
- `surfaces.dfy` validates and rebases surfaces; `raster.dfy`, `copy.dfy`,
  `copy_safety.dfy` and `copy_jobs.dfy` carry an accepted copy down to pixels.
- `bits.dfy`, `plane_masks.dfy`, `set_families.dfy`, `planar.dfy`, `planar_passes.dfy`,
  `planar_blits.dfy` and `planar_direct.dfy` do the same for planar blits.
- `engine_state.dfy` is the register write-elision cache and the hand-over it relies on.
- `float_bits.dfy`, `r200_registers.dfy` and `triangles.dfy` are the wire format, its
  emitter and its exact validator.
- `private_vram.dfy`, `aux_pool.dfy`, `aux_surfaces.dfy`, `segments.dfy` and
  `vram_layout.dfy` say who owns which byte of video memory.
- `samples.dfy` is the lock-free sample ring, `pll.dfy` the pixel clocks, `words.dfy`
  32-bit arithmetic.

Where a promise does not hold, the model keeps the code's behaviour, gives a concrete
run and states exactly when the promise is kept: a fence-less dispatch behind a pending
fence (`DrainSafeRuns`), a planar blit with no plane selected (`EmptyBlitExactly` for
the card, `EmptyBlitSurvives` for the cache), a copy between surfaces that share a
pitch/offset register but not their biases (`CompleteCopyExactly`), a session from an
earlier attachment that closes or releases a surface (`Segments.CloseExact`,
`AuxSurfaces.CloseExactly`, `ReleaseExactly`), an access to the segment mask torn by
another (`StoreClearExactly`), the holder of a lease that a recovery made stale
(`CloseEndsExactly`), what a holder leaves behind its last fence
(`DrainAfterReleaseExactly`), the first commit after a lease (`NextCommitExactly`), the
wrap of the generation counter (`StaleSessionExact`), the reader loop at the largest sequence
number (`LoopEndsExactly`), and a pixel clock request whose rounding wraps
(`NearestExactly`).

Where code and comments of the repository disagree, the model follows the code:

- `src/radeon_cp.c:197-204` says that progress resets the stall budget; lines 222-225
  do not reset it.
- `src/radeon3d_service.c:335` says that callers of the aux pool hold ServiceLock;
  `FreeDeviceSurfaces`, called at line 524, does not take it.
- `src/radeon_accel.c:2772-2773` calls the lease guards a no-op while fence-less work
  may be fetching.  The code has no such test, but the bit it would write is then
  already clear in every allowed run (`GuardsHold`).
- `src/radeon3d_service.c:200-202` says that samples are written with the service lock
  held; `RecordExecSample` runs after `LockServiceBoard` has released ServiceLock (line
  1021), and BoardLock is what serialises writers.
- The sample ring is allocated without clearing (`src/radeon3d_service.c:165-167`); a
  reader still never trusts an unwritten slot, because it asks only for published
  numbers.

## Model

| member | source | states |
|---|---|---|
| Words.SkipZeroCollides | src/radeon3d_service.c:771-778 | two values of a counter that skips zero are equal exactly when their serials are a whole number of 2^32-1 steps apart |
| CpRing.BurstRegisterSwap | src/radeon_cp.c:322-357 | rol.w / swap / rol.w on a register reverses its four bytes |
| CpRing.SwapReversesBytes | src/radeon_cp.c:322-357 | the swapped dword has the bytes of the original in the opposite order |
| CpRing.StreamDwordLayout | src/radeon_cp.c:293-313 | asking for one dword at a time yields the same stream as laying it out at once: commands, the tail if wanted, padding to a multiple of 16 |
| CpRing.StreamRetires | src/radeon_cp.c:296-312 | read as packets, what follows the commands of a stream retires its fence and does nothing else |
| CpRing.FreeIsExact | src/radeon_cp.c:217-221 | the masked pointer difference is the free space of the ring, one slot always kept free |
| CpRing.CopyKeepsQueue | src/radeon_cp.c:383-416 | copying into reserved slots, across either wrap segment, overwrites no unread dword |
| CpRing.CopyExtendsStaged | src/radeon_cp.c:383-416 | the two segments together hold the stream in order, whatever the write pointer |
| CpRing.LastReadsBack | src/radeon_cp.c:418-423 | the read-back of the last dword always finds what was written |
| CpRing.StagedJoinsQueue | src/radeon_cp.c:425-430 | publishing a staged stream extends the queue by exactly that stream |
| CpRing.Ring.StreamsInRing | src/radeon_cp.c:374-381 | of the streams of any valid ring at most 16383 have not begun to be fetched, whatever their lengths |
| CpRing.BeginningFits | src/radeon_cp.c:377-381 | each stream that begins behind the read position fills at least 16 dwords of the queue |
| CpRing.Ring.constructor | src/radeon_cp.c:628-665 | a configured ring is valid and its queue empty |
| CpRing.Ring.CommandProcessorRuns | src/radeon_cp.c:206-233 | the environment step: the processor consumes a prefix of the queue and nothing else changes |
| CpRing.Ring.Reserve | src/radeon_cp.c:206-233 | terminates without a timer: at most 20000 plus the occupied dwords polls; succeeds only with the space free, at once if it is free, never for a full ring; the queue is not changed |
| CpRing.Ring.BurstCopySwapped | src/radeon_cp.c:322-357 | the 8-wide copy equals byte reversal dword by dword and touches no other slot |
| CpRing.Ring.CopySegment | src/radeon_cp.c:387-415 | one contiguous segment of commands and tail lands byte-swapped in its slots |
| CpRing.Ring.CopyStream | src/radeon_cp.c:377-416 | a stream is staged behind the queue across a wrap in the middle; the queue is unchanged |
| CpRing.Ring.Publish | src/radeon_cp.c:418-430 | WPTR is written last; the queue grows by the stream or, on failure, stays as it was |
| CpRing.Ring.CommitStream | src/radeon_cp.c:359-431 | success appends the commands and, behind them in whole lines, dwords that a packet reader turns into the writes flush caches, wait for idle and clean, sequence to SCRATCH_REG0 - or into none without a fence; failure leaves queue and write pointer unchanged; with room and a working card it succeeds |
| CpRing.Ring.AdoptFence | src/radeon_cp.c:1167-1184 | after a lease the ring is consistent again exactly when WritePointer still equalled WPTR (fence 0) or the queue was drained (other fences) |
| CpRing.Ring.LeaseOneLine | src/radeon_cp.c:1167-1184 | a concrete lease after which the write pointer of the driver is not where the queue ends, with a fence reported and without |
| CpRing.LeasedRing | src/radeon_cp.c:1167-1184 | a ring on which that happens exists |
| CpRing.NextCommitSees | src/radeon_cp.c:377-430 | what the processor then reads of the next stream: the queue without what lies behind the stale pointer, or the stream without its first dwords |
| CpRing.NextCommitExactly | src/radeon_cp.c:377-430 | the next commit appends its stream to the queue if and only if the pointer is where the queue ends |
| BoardDriver.Driver.SubmitStream | src/radeon_cp.c:938-971 | succeeds exactly when the processor is ready and the commit goes through; then exactly the work and its fence are behind everything queued, and the fence is new: it names the end of the queue and does not test as retired; a failure leaves the card alone; fences stay numbered and no number is used twice |
| BoardDriver.Driver.TestFence | src/radeon_cp.c:973-996 | success means that every stream with that fence is complete, and what was completed within the last 2^31-2 fences succeeds; the pending fence is forgotten only once complete |
| BoardDriver.Driver.WaitFence | src/radeon_cp.c:998-1024 | the same after any progress of the processor, which never moves back |
| BoardDriver.Driver.CpWait | src/radeon_cp.c:1026-1075 | success on a fence that names the end of the queue leaves nothing incomplete; it succeeds when that fence is there or none is pending |
| BoardDriver.Driver.CpWaitDrained | src/radeon_cp.c:1090-1104 | success leaves no fence-less work counted, and where some was the whole card is idle; it fails exactly when the card does not answer |
| BoardDriver.Driver.CpAbort | src/radeon_cp.c:858-867 | the processor stops with nothing queued, what it completed stays complete, and no session can use the service |
| BoardDriver.Driver.CpRecover | src/radeon_cp.c:820-856 | a restarted ring is empty, counts from one, and no fence up to 0x5eadbeef tests as retired on it |
| BoardDriver.Driver.InvalidateService | src/radeon3d_service.c:1938-1958 | nobody can use the service, and whoever could before stays out after it is armed again |
| BoardDriver.Driver.RearmService | src/radeon3d_service.c:1960-1981 | the service serves exactly the sessions of its present generation again, or nothing changed |
| BoardDriver.Driver.RecoverEngine | src/radeon_accel.c:329-365 | ends ready with an idle card, the baseline and an empty ring that no earlier session can use, in software fallback, or unsafe without a processor, as reset and restart decide; a second attempt changes nothing |
| BoardDriver.Driver.SynchronizeEngine | src/radeon_accel.c:387-409 | where the wait is answered it succeeds without a reset; success on a working engine leaves the card drained with the baseline in place, without misuse on the way |
| BoardDriver.Driver.Prepare3D | src/radeon_accel.c:411-427 | success leaves nothing drawn undrained; a ready engine pending on the queue is left exactly as it is |
| BoardDriver.Driver.Mark3DSubmitted | src/radeon_accel.c:429-437 | from here the next submission follows without a drain, and 2D draws only after one |
| BoardDriver.Driver.AdoptFence | src/radeon_cp.c:1167-1184 | nothing is pending and the next fence is one ahead of the last of the holder, across the wrap |
| BoardDriver.Driver.ReclaimLease | src/radeon_accel.c:454-470 | the lease is over and the engine has been through a recovery |
| BoardDriver.Driver.LeaseBlocks | src/radeon_accel.c:477-491 | exactly an unexpired lease blocks, and then nothing changes; otherwise no lease is left |
| BoardDriver.Driver.PrepareMmio | src/radeon_accel.c:493-503 | success means that 2D may draw: no lease, nothing queued incomplete, the baseline in place; refused without effect under a lease or with 2D off the hardware |
| BoardDriver.Driver.Draw | src/radeon_accel.c:2376-2391 | draws and marks it pending when nothing hinders it, recovers when a pass fails, drains for software; never misuses the card, unless it has no pass while a restore is due |
| BoardDriver.Driver.Submit | src/radeon3d_service.c:982-1028 | without effect for a stale session or under a lease; a success puts exactly its work and fence behind what the ring held and hands the engine over; a failure leaves the ring or starts a new one; fences stay numbered and the card is not misused unless fence-less work is put behind a pending fence |
| BoardDriver.Driver.AcquireLease | src/radeon3d_service.c:1564-1608 | granted to one usable session when nobody has it, always when the engine is queued or drains; nothing drawn is undrained, and from then on no 2D preparation succeeds |
| BoardDriver.Driver.ReleaseLease | src/radeon3d_service.c:1632-1667 | only the holder ends a lease; it succeeds exactly when its last fence is found retired, and then everything queued up to that fence is complete and 2D is back on the hardware; a failure means that a recovery has put every session out; the next 2D operation has to drain and restore first |
| BoardEffects.ReachedMeans | src/radeon_cp.c:973-996 | on one ring a fence number tests as retired only when every stream with it is complete, and always when that was recent |
| BoardEffects.SoftwareMeans | src/radeon_accel.c:562-582 | before software draws, nothing drawn or queued is incomplete, unless a lease owns the engine |
| BoardEffects.RetireMeans | src/radeon3d_service.c:876-880 | waiting for the last fence of a session ends with that fence retired on the same ring, or with a recovery that puts every session out |
| BoardEffects.CloseMeans | src/radeon3d_service.c:875-898 | so a session closes only behind its last fence, and a holder that closes ends its lease over an idle card |
| BoardEffects.SurfaceMeans | src/radeon3d_service.c:1894-1899 | a surface is released only behind the last fence of its session |
| BoardEffects.DrainAfterReleaseExactly | src/radeon3d_service.c:1649-1658 | after a successful release the next 2D preparation misuses the card if and only if the holder left something incomplete behind its last fence |
| BoardEffects.UnfencedRelease | src/radeon3d_service.c:1649-1658 | a concrete holder that queues a fetch without a fence and reports none: the next 2D preparation rewrites the baseline under it |
| BoardEffects.OwnFencesExactly | src/radeon3d_service.c:1708-1730 | a fence is taken for one of the session exactly when it is not newer than its newest, with fewer than 2^31 between |
| BoardEffects.SessionFenceMeans | src/radeon3d_service.c:1732-1766 | Radeon3DTestFence and Radeon3DWaitFence answer like the board for a fence of a usable session, and refuse any other without effect |
| BoardEffects.BeginReleaseMeans | src/radeon9200.c:161-193 | once a release has begun no session of this attachment is served, now or later |
| BoardEffects.ReleasedForGood | src/radeon9200.c:161-193 | from the moment a release begins, no run without a new attachment serves any session again |
| BoardEffects.FinishReleaseMeans | src/radeon9200.c:121-159 | the second half leaves no processor, no queued work and nothing pending, and misuses the card exactly when something was incomplete |
| BoardFences.NextSequenceIsNext | src/radeon_cp.c:952-956 | NextFence with its skip of zero is the serial counter |
| BoardFences.FenceReachedExact | src/radeon_cp.c:973-976 | within the stated window the signed difference decides exactly whether a serial has been reached, including the skip of zero and the self-test residue |
| BoardFences.SubmitStreamKeeps | src/radeon_cp.c:938-971 | every submission the commit lets through, and every one it does not, keeps fences numbered in ring order |
| BoardFences.RecoverKeeps | src/radeon_accel.c:329-365 | recovery leaves a consistent ring or none |
| BoardFences.StepKeeps | src/radeon3d_service.c:982-1028 | every step of driver, card and service keeps the numbering and only moves forward within one ring |
| BoardFences.RunKeeps | src/radeon3d_service.c:982-1028 | the same for whole lease-free runs |
| BoardFences.FencePositionExact | src/radeon_cp.c:667-686 | on one ring a fence tests as retired only once it is complete, and tests so for the next 2^31-2 fences |
| BoardFences.StillSameRing | src/radeon3d_service.c:490-498 | a session that is still usable fewer than 2^32-1 generations later faces the ring it submitted to |
| BoardFences.FenceSoundness | src/radeon_cp.c:978-996 | over all lease-free runs: same ring epoch, and a fence tests as retired only when every stream up to it is consumed |
| BoardFences.SessionFenceSoundness | src/radeon3d_service.c:1708-1766 | a successful Radeon3DTestFence or Radeon3DWaitFence means that every stream up to that fence is consumed |
| BoardFences.FencesFromPowerUp | src/radeon3d_service.c:1708-1766 | the same from power-up, with any lease-free run before the fence and any after it |
| BoardFences.StaleSessionExact | src/radeon3d_service.c:490-498 | a session from before a recovery passes the generation check again exactly when a multiple of 2^32-1 invalidations went by |
| BoardExclusion.QueueDrainSafe | src/radeon_accel.c:400-405 | whatever the processor does, a successful drain leaves nothing incomplete when the newest work is named by the driver fields |
| BoardExclusion.DrawApart | src/radeon_accel.c:493-503 | a 2D operation keeps 2D and queue apart, unless it has no pass while a restore is due |
| BoardExclusion.SubmitApart | src/radeon_accel.c:411-437 | a submission kicks the ring only with no drawing undrained, and an indirect fetch only with the host-endian bit clear |
| BoardExclusion.StepApart | src/radeon_accel.c:387-437 | every allowed step keeps the exclusion invariant |
| BoardExclusion.Exclusion | src/radeon_accel.c:387-437 | over all allowed runs the card is never misused; pending on the queue is the same as a restore being due, and then the baseline really is lost |
| BoardExclusion.GuardsHold | src/radeon3d_service.c:1338-1376 | the dispatch and grant guards write nothing while an indirect fetch is incomplete or fence-less work is counted |
| BoardExclusion.GuardUnderBatch | src/radeon3d_service.c:1347-1369 | the guard does clear the bit under an incomplete batch, which is no misuse |
| BoardExclusion.SwapUnderFetch | src/radeon3d_service.c:1347-1369 | under an incomplete fetch with the bit set it would be one |
| BoardExclusion.IdleBaseline | src/radeon_accel.c:411-437 | left alone the card keeps the baseline exactly when it has it and no work is left |
| BoardExclusion.FencelessAfterFence | src/radeon_cp.c:1059-1061 | a run "fenced, fence-less, then 2D" rewrites the baseline under running work |
| BoardDrains.DrainSafeExact | src/radeon_cp.c:1026-1104 | the drain is safe for every card the fields allow if and only if no fence is pending or nothing fence-less followed it |
| BoardDrains.RunTracked | src/radeon_cp.c:938-1104 | over every lease-free run the pending fence names the last fence of the queue until the card is misused |
| BoardDrains.DrainSafeRuns | src/radeon_cp.c:1026-1104 | so the if-and-only-if holds at every point of every lease-free run, fence-less work behind a fence included |
| BoardExclusion.EmptyPlanarBlit | src/radeon_accel.c:2238-2241 | a planar blit with no plane selected overwrites the pending state; while a restore is due, the next operation draws without the baseline |
| BoardExclusion.EmptyBlitApart | src/radeon_accel.c:2238-2241 | on the hardware it keeps the exclusion invariant if and only if no restore is due |
| BoardExclusion.EmptyBlitExactly | src/radeon_accel.c:2238-2241 | no allowed run after it ever misuses the card if and only if 2D is not on the hardware or no restore is due |
| BoardExclusion.EmptyPlanarReachable | src/radeon_accel.c:2101-2131 | the state it needs is reached by the first submission after attaching |
| BoardLease.StepCoherent | src/radeon3d_service.c:1546-1706 | LeaseActive holds exactly when LeaseDevice is set, and UNSAFE implies that the processor is not ready, after every step |
| BoardLease.RunCoherent | src/radeon3d_service.c:1546-1706 | the same for every run |
| BoardLease.UnsafeAbsorbing | src/radeon_accel.c:329-365 | no run of submissions, recoveries, grants, releases and closes leaves UNSAFE before the board is detached |
| BoardLease.UnsafeFromPowerUp | src/radeon_accel.c:329-365 | the same for every state reached from power-up, leases included |
| BoardLease.LeaseOwnsRing | src/radeon3d_service.c:1546-1706 | over every run under one lease, as long as the ring is not restarted, the queue grows by exactly what the holder writes and no sequence number is taken |
| BoardLease.LeaseEnds | src/radeon_accel.c:477-491 | a lease ends only with its holder, by expiry, or by a reclaim |
| BoardLease.GrantThenRelease | src/radeon3d_service.c:1584-1662 | whatever happens under a lease, its release by a holder that is still usable succeeds if and only if its last fence, if it has one, is found retired; then 2D is back on the hardware with a restore due, otherwise the ring is a new one |
| BoardLease.CloseLeavesEngineParked | src/radeon3d_service.c:880-897 | closing a session that is still usable and holds the lease ends it but leaves 2D in fallback |
| BoardLease.CloseEndsExactly | src/radeon3d_service.c:880-897 | closing or releasing ends the lease of its holder if and only if the generation of the holder is still served; otherwise nothing changes |
| BoardLease.OrphanedLease | src/radeon3d_service.c:1894-1899 | a concrete run: another session releases a surface under the lease, its wait fails, and the holder then closes with the lease still live |
| Sessions.FindDevice | src/radeon3d_service.c:62-75 | the first listed record with the handle, or none |
| SessionSafety.DropTallied | src/radeon3d_service.c:560-602 | the call that leaves last, and no other, takes over cleanup and pin |
| SessionSafety.OpenGood | src/radeon3d_service.c:832-861 | opening reaps only records nobody refers to |
| SessionSafety.EntryGood | src/radeon3d_service.c:547-556 | entering counts the call before BoardLock is requested |
| SessionSafety.ReadyGood | src/radeon3d_service.c:522-530 | reporting a cleanup takes exactly one session off the count |
| SessionSafety.MarkGood | src/radeon3d_service.c:899-919 | two closes of one handle: only one finds the record |
| SessionSafety.StepKeeps | src/radeon3d_service.c:500-603 | every step of every thread keeps the invariant |
| SessionSafety.RunKeeps | src/radeon3d_service.c:500-603 | every interleaving of any number of threads keeps it |
| SessionSafety.HeldRecordLives | src/radeon3d_service.c:260-274 | a record is never freed, nor about to be reaped, while a call or a cleanup holds it |
| SessionSafety.CleanupAtMostOnce | src/radeon3d_service.c:514-534 | cleanup and pin close happen at most once, and not while the session is open |
| SessionSafety.CleanupExactlyOnce | src/radeon3d_service.c:514-534 | once all callers have returned each has happened exactly once for every closed session |
| SessionSafety.SessionsExact | src/radeon3d_service.c:525-530 | ServiceSessions is the number of records not yet CleanupReady, and neither guarded decrement ever meets a zero |
| SessionSafety.ExpungeTallied | src/radeon3d_service.c:1983-1996 | with no session left, freeing every retired record is safe |
| SessionSafety.LockOrder | src/radeon3d_service.c:558-559 | nobody asks for BoardLock while owning it; that no region asks for it under ServiceLock is how regions are modelled, not derived |
| SessionSafety.NoDeadlock | src/radeon3d_service.c:536-603 | whoever is blocked waits for a thread that can move |
| SessionSafety.HandlesCollide | src/radeon3d_service.c:853-855 | two sessions share a handle exactly when a multiple of 2^31 opens lies between them |
| SessionSafety.HandleFindsItsSession | src/radeon3d_service.c:62-75 | within 2^31 opens a handle finds its own session |
| SessionProgress.SetsOut | src/radeon3d_service.c:536-556 | an idle caller sets out to do what it is asked |
| SessionProgress.CallReturns | src/radeon3d_service.c:536-603 | a call that nobody holds up runs under BoardLock and leaves no trace |
| SessionProgress.CloseSucceeds | src/radeon3d_service.c:863-919 | a close that nobody holds up ends with the session retired, cleaned up once, its pin closed once and one session less |
| SessionProgress.OpenSucceeds | src/radeon3d_service.c:831-861 | opening adds one session under the next handle and frees exactly the retired records that are ready |
| SessionProgress.ExpungeFreesAll | src/radeon3d_service.c:1983-1996 | over every run: when the library goes, every record there ever was has been freed |
| SessionProgress.ExpungeWaits | src/library.c:207-216 | with a session open or not cleaned up an expunge changes nothing |
| Surfaces.AcceptedExactly | src/radeon_accel.c:584-690 | hardware is used exactly for a supported format with a usable pitch, wholly in memory, starting on a pixel, within reach of the biased coordinates |
| Surfaces.RefusalExactly | src/radeon_accel.c:584-690 | which refusal an unaccepted rectangle gets: rejected exactly when it is empty or, on the board, not within its rows and the usable memory; software off the board exactly when it begins outside |
| Surfaces.AcceptedAddresses | src/radeon_accel.c:658-688 | the packed register and the biased coordinates address FramebufferGpuBase + offset + y*pitch + x*bpp for every pixel; coordinates are at most 8191 |
| Surfaces.AcceptedExtent | src/radeon_accel.c:646-656 | StartOffset and EndOffset enclose the rectangle tightly, below the limit, with no 32-bit carry |
| Surfaces.RectangleBounds | src/radeon_accel.c:640-653 | the wrapped comparisons say what they seem to say |
| Surfaces.SameSurfaceExact | src/radeon_accel.c:692-730 | the same-surface check answers exactly like a fresh ValidateSurface |
| Surfaces.LineAddresses | src/radeon_accel.c:797-823 | every pixel a line may touch is the byte the bitmap means |
| Surfaces.LineFits | src/radeon_accel.c:781-795 | it lies in its row and below the memory limit |
| Surfaces.LineAcceptedExactly | src/radeon_accel.c:733-833 | a line is drawn by hardware exactly when it runs the right way inside a bitmap hardware can address, its farthest pixel in its row, in the usable memory and within the range of the engine |
| Surfaces.LineSurfaceCache.Validate | src/radeon_accel.c:748-833 | with or without a cache hit the answer is that of a recomputation |
| Surfaces.LineSurfaceCache.Recompute | src/radeon_accel.c:755-824 | a miss stores exactly the recomputed layout, a refusal leaves no valid entry |
| Raster.HazardFreeCopies | src/radeon_accel.c:1316-1322 | in-place copying equals copying from a snapshot when nothing is read after it is written |
| Raster.CopiesExactly | src/radeon_accel.c:1316-1322 | with one displacement: if and only if |
| Copy.Execute | src/radeon_accel.c:1316-1322 | the engine: rows and columns in the programmed direction, in place |
| CopySafety.SharedExactly | src/radeon_accel.c:1280-1293 | for surfaces with one pitch/offset register, exactly when the chosen direction rereads a written cell |
| CopySafety.OneSurfaceSafe | src/radeon_accel.c:1280-1293 | two rectangles of one surface never do |
| CopyJobs.EqualRowsSafe | src/radeon_accel.c:2456-2459 | equal pitches, whole copy forward or in reverse as the destination starts: nothing is reread |
| CopyJobs.DisjointSafe | src/radeon_accel.c:2452-2455 | disjoint byte ranges: nothing is reread |
| CopyJobs.BlitRectTaken | src/radeon_accel.c:2348-2384 | within one bitmap hardware takes exactly the copies between two rectangles it can draw |
| CopyJobs.CompleteTaken | src/radeon_accel.c:2442-2480 | between two bitmaps it takes exactly those whose rows are of one length or whose bytes lie apart |
| CopyJobs.BlitRectCopies | src/radeon_accel.c:2327-2398 | RadeonBlitRect moves its rectangle like a snapshot for every overlap, size and mask |
| CopyJobs.CompleteCopyExactly | src/radeon_accel.c:2409-2539 | RadeonBlitRectNoMaskComplete does so for every raster operation and memory if and only if the registers differ or the shared register passes a guard on distances and sizes |
| CopyJobs.DisjointPasses | src/radeon_accel.c:2452-2459 | disjoint rectangles always pass |
| CopyJobs.SharedRegisterCorrupts | src/radeon_accel.c:2499-2506 | a submitted copy between two bitmaps 32 bytes apart that does not move like a snapshot |
| Planar.PreparedPixel | src/radeon_accel.c:1918-1955 | a prepared source reads, for every pixel, that pixel of the bitmap |
| Planar.PreparedReads | src/radeon_accel.c:1925-1931 | and never outside its planes |
| Planar.PreparedExactly | src/radeon_accel.c:1918-1955 | exactly the rectangles inside the bitmap are taken, from at most eight planes, none of them on the board |
| Planar.FieldWord | src/radeon_accel.c:963-989 | 32-bit field extraction left-aligns exactly the asked bits |
| Planar.CombineWord | src/radeon_accel.c:2066-2089 | a host word is the AND of the planes or of their complements |
| Planar.HostWord | src/radeon_accel.c:2055-2075 | the one-plane shortcut sends the same word |
| Planar.StreamRow | src/radeon_accel.c:2048-2090 | the words of a row carry exactly its bits, the tail reads no bit too many |
| Planar.ExpandRow | src/radeon_accel.c:2036-2045 | the scissor drops the padding: only the rectangle changes |
| PlanarPasses.StreamedSelects | src/radeon_accel.c:1957-2002 | the streamed bit is set exactly for the pixels whose plane index the masks select |
| PlanarPasses.SubmitPass | src/radeon_accel.c:1962-2093 | one pass paints every pixel of the rectangle by its bit, refused exactly when a selected plane has no data or none is selected |
| PlanarBlits.SubmitChunky | src/radeon_accel.c:2095-2132 | every pixel keeps the bits outside the mask and takes the others from its plane index; one fill for each kind of constant plane and one pass for each data plane are submitted, so nothing exactly when the mask selects no plane |
| PlanarBlits.IndexOfBitMap | src/radeon_accel.c:1918-1955 | that index is the one of the bitmap pixel at the source position |
| PlanarDirect.Classify | src/radeon_accel.c:2136-2158 | masked planes split into constant ones and data planes, the latter counted |
| PlaneMasks.NextIsLargestBelow | src/radeon_accel.c:2181 | (subset - 1) & dataBits is the largest submask below, so none is missed and none comes twice |
| PlanarDirect.SubsetSelects | src/radeon_accel.c:2192-2194 | a pass for a combination selects exactly the pixels with that combination |
| PlanarDirect.PaintSubsets | src/radeon_accel.c:2181-2196 | the loop ends, visits every combination, and makes at most 2^n - 2 passes |
| PlanarDirect.SubmitDirect | src/radeon_accel.c:2160-2198 | every pixel gets the colour of its masked plane index, whatever was there; one pass for the ground and one for each combination that is not skipped, at most 2^n - 1 with n data planes |
| PlanarDirect.BlitPlanar2Direct | src/radeon_accel.c:2291-2306 | the same from a bitmap, on the hardware exactly when the rectangle is taken and at most three masked planes hold data, in at most seven passes |
| EngineState.WriteNothing | src/radeon_accel.c:1294-1303 | writing what the registers hold changes nothing: the shortcut is sound |
| EngineState.WritesLand | src/radeon_accel.c:167-181 | a list of distinct registers ends up written, all others kept |
| EngineState.ElidedWrites | src/radeon_accel.c:167-181 | with an exact cache a chain of elided writes does what unconditional writes do, and the cache stays exact |
| EngineState.ElisionExactly | src/radeon_accel.c:167-181 | elision refines unconditional writes for every list of registers if and only if every valid cached value equals its register |
| EngineState.AllHit | src/radeon_accel.c:1294-1303 | where everything hits, the chain would have written nothing: the shortcut is sound |
| EngineState.EmptyBlitSurvives | src/radeon_accel.c:387-409 | after a planar blit with no plane selected and the drain that follows, the cache is right about whatever queued work left if and only if no restore was due or it knows nothing of the card |
| EngineState.EmptyBlitGoesStale | src/radeon_accel.c:2238-2241 | a run of four operations after which a cached value differs from its register while no restore is due |
| EngineState.Engine.Set | src/radeon_accel.c:167-181 | the register holds the value afterwards, written or elided, when the cache is exact |
| EngineState.Engine.Begin | src/radeon_accel.c:183-191 | another board, or no host data path, drops what the cache knows |
| EngineState.Engine.SetAllUnlessReady | src/radeon_accel.c:1294-1315 | the all-at-once shortcut does exactly what the chain does, and with an exact cache what unconditional writes do |
| EngineState.Engine.Restore | src/radeon_accel.c:297-327 | the eight baseline registers hold their values one by one, the others are kept, and the cache restarts from them |
| EngineState.Engine.Recover | src/radeon_accel.c:329-365 | succeeds exactly at the first try of a card that resets; then the cache is right whatever it held, the baseline is in place and the engine is ready or in fallback as the processor came back |
| EngineState.Engine.Synchronize | src/radeon_accel.c:387-409 | only the branch that waits for the queue restores the baseline and drops the cache; both clear the restore; the invariant is kept |
| EngineState.Engine.ProcessorWorks | src/radeon_accel.c:429-437 | queued work may change any register while a restore is due, and the invariant holds |
| EngineState.Engine.Prepare | src/radeon_accel.c:493-503 | from a valid state a drawing path starts from registers the cache is right about; drawing pending while a restore is due clears it and restores nothing |
| EngineState.Engine.EmptyPlanarBlit | src/radeon_accel.c:2238-2241 | keeps the invariant if and only if 2D is not on the hardware or no restore is due |
| EngineState.Engine.Submit3D | src/radeon_accel.c:411-437 | a submission leaves the card pending on the queue with a restore due, invariant kept; it fails exactly when the engine neither is ready for it nor drains nor recovers |
| EngineState.Engine.SubmitSolidRect | src/radeon_accel.c:889-905 | from a valid state: master, pen, write mask, direction and surface end up in their own registers and every other register is as prepared, whatever was elided |
| EngineState.Engine.SubmitPattern | src/radeon_accel.c:934-953 | from a valid state: master, write mask, both brush colours, direction and surface end up in their own registers and every other register is as prepared |
| EngineState.Engine.SubmitCopy | src/radeon_accel.c:1273-1315 | from a valid state: master, write mask, direction and both surfaces end up in their own registers and every other register is as prepared, shortcut included |
| EngineState.Engine.SubmitLine | src/radeon_accel.c:2555-2593 | from a valid state: master, surface, write mask, pen, direction and an open scissor end up in their own registers and every other register is as prepared, shortcut included |
| EngineState.Engine.SubmitHostTemplate | src/radeon_accel.c:2008-2046 | host data is not set up again only when it still is; a full FIFO leaves the cache right |
| EngineState.Engine.SubmitTemplate | src/radeon_accel.c:1173-1222 | from a valid state: master, write mask, both source colours, direction, surface and scissor end up in their own registers and every other register is as prepared |
| FloatBits.UnsignedFloatBits | include/radeon3d_emit.h:13-24 | the loop computes the bit pattern of an integer |
| FloatBits.FloatBitsExact | include/radeon3d_emit.h:13-24 | that pattern denotes the integer exactly |
| FloatBits.UnitsRise | include/radeon3d_emit.h:43-48 | patterns are ordered like the values they denote |
| FloatBits.CoordinateExact | include/radeon3d_emit.h:43-48 | the integer comparison accepts exactly the finite values in [0, limit] with a clear sign |
| Triangles.EmitRegister | tools/radeon3dphase1.c:24-29 | appends one header and one value |
| Triangles.BuildTriangles | tools/radeon3dphase1.c:44-80 | writes exactly the stream of the contract: every register by its header, a scissor that is exactly the target, and a draw packet that counts exactly the vertices behind it |
| Triangles.StreamRenders | tools/radeon3dphase1.c:44-80 | read as packets, every such stream renders to its target and nowhere else, extents of zero included |
| Triangles.FindTarget | src/radeon3d_service.c:616-635 | the first eligible surface of the session |
| Triangles.MatchRegister | src/radeon3d_service.c:605-614 | matches exactly one header and value, never reads past the end |
| Triangles.MatchPreamble | src/radeon3d_service.c:669-740 | accepts exactly the fixed registers and the target they name |
| Triangles.TablesAgree | src/radeon3d_service.c:645-740 | the words the validator puts together from register fields are the numbers the emitter writes |
| Triangles.ValidateTriangleBatch | src/radeon3d_service.c:638-748 | accepted exactly when equal to the emitter output for the first eligible surface at that address, with vertices on it; so an accepted stream has a scissor that is exactly that surface |
| Triangles.EmitterAccepted | tools/radeon3dphase1.c:44-80 | what the emitter builds is accepted exactly when its vertices are on the target |
| Triangles.AcceptedPositions | src/radeon3d_service.c:741-746 | in an accepted stream every position is a value in [0, width] or [0, height] |
| Triangles.ValidateBatch | src/radeon3d_service.c:750-768 | all fill, or exactly one triangle list |
| Triangles.FillPrefixRefused | src/radeon3d_service.c:758-766 | a list behind leading fill is refused |
| PrivateVram.BoardInfo.Allocate | src/dma.c:6-18 | lowers the limit to the aligned block it returns, or changes nothing |
| PrivateVram.BoardInfo.Free | src/dma.c:20-37 | takes back only the most recent carve |
| PrivateVram.BlocksApart | src/radeon_accel.c:1531-1547 | carved blocks never overlap |
| PrivateVram.NextFree | src/radeon_accel.c:1574-1589 | releasing in the opposite order is always accepted |
| PrivateVram.PlausibleExactly | src/dma.c:10-13 | the sizes accepted are exactly those whose rounded block is not empty and fits 32 bits |
| PrivateVram.BoardInfo.CarveAll | src/radeon_accel.c:1527-1556 | initialisation leaves the limit below every block that stays; a component that fails to start gives its block back at once |
| PrivateVram.BoardInfo.FreeAll | src/radeon9200.c:131-141 | shutdown order: cursor, aux pool, segments, ring |
| PrivateVram.BoardInfo.AttachAndRelease | src/radeon9200.c:131-141 | for every subset of carves, failed starts included, the limit is restored if and only if it was 4096-aligned or nothing was ever carved |
| VramLayout.UsesDisjoint | src/radeon3d_service.c:1063-1079 | ring, cursor, and the segments and auxiliary surfaces of any two sessions are pairwise disjoint |
| VramLayout.UsesDisjointInRuns | src/radeon3d_service.c:1145-1218 | so they are at every point of every run without a stale free |
| VramLayout.UsesAboveLimit | src/dma.c:13-17 | all of them lie above the Picasso96 limit |
| VramLayout.ImportBelow | src/radeon3d_service.c:1828-1838 | an imported bitmap lies wholly below the limit |
| VramLayout.ImportableExactly | src/radeon3d_service.c:1828-1838 | exactly the bitmaps with usable rows wholly in the usable memory are imported; the divisions in the checks cut nothing off |
| VramLayout.ImportDisjoint | src/radeon3d_service.c:1828-1846 | so it meets no private use |
| AuxPool.Pool.FindOffset | src/radeon3d_service.c:342-368 | the least offset that clears every block; the candidate rises strictly, so the search ends |
| AuxPool.Pool.Alloc | src/radeon3d_service.c:339-381 | blocks stay aligned, disjoint and in the pool; fails exactly when inadmissible, without a place, or with all eight entries taken |
| AuxPool.Pool.Free | src/radeon3d_service.c:383-397 | frees exactly the entry with this offset and size |
| AuxPool.PushedPast | src/radeon3d_service.c:362-366 | pushing the candidate past a block skips no place |
| AuxPool.OverlapsExactly | src/radeon3d_service.c:357-366 | two blocks are held to overlap exactly when they share a byte |
| AuxSurfaces.SurfaceInBlock | src/radeon3d_service.c:1172-1204 | the padded rows of a surface fit 32 bits, do not overlap and lie in its block |
| AuxSurfaces.Service.AllocSurface | src/radeon3d_service.c:1145-1218 | only a session of this attachment gets a block, the one the pool hands out, at the end of its list |
| AuxSurfaces.Service.ReleaseSurface | src/radeon3d_service.c:1879-1926 | the surface leaves the list and its offset and size leave the table, whoever asks |
| AuxSurfaces.Service.FreeDeviceSurfaces | src/radeon3d_service.c:399-412 | the whole list is freed |
| AuxSurfaces.TurnIsRelease | src/radeon3d_service.c:405-411 | one turn of the loop is a release, so runs cover turns interleaved with the allocator |
| AuxSurfaces.TurnsAddUp | src/radeon3d_service.c:405-411 | undisturbed, the turns add up to the close |
| AuxSurfaces.Service.Reattach | src/radeon_accel.c:1513-1526 | the table is cleared, the lists are not |
| AuxSurfaces.RunKeeps | src/radeon3d_service.c:1145-1218 | over every run without a stale free, lists freed entry by entry included, the live blocks are the disjoint union of the surfaces of this attachment |
| AuxSurfaces.NeverShared | src/radeon3d_service.c:1188-1203 | two surfaces never share a byte |
| AuxSurfaces.OneAttachment | src/radeon3d_service.c:1145-1218 | attached once, before anybody opens, every event of every run is allowed, so the properties above hold without a condition |
| AuxSurfaces.ReleaseExactly | src/radeon3d_service.c:1900-1911 | a release keeps that if and only if the session is of this attachment or the table has no entry of that offset and size |
| AuxSurfaces.CloseExactly | src/radeon3d_service.c:399-412 | and a close if and only if the same holds of all its surfaces |
| AuxSurfaces.StaleCloseShares | src/radeon_accel.c:1521-1525 | a concrete run with a close left over from before a re-attachment, after which two sessions hold one block |
| Segments.Service.AllocSegment | src/radeon3d_service.c:1054-1079 | hands out the lowest clear bit, fails exactly when there is none |
| Segments.Service.FreeSegment | src/radeon3d_service.c:1103-1118 | only a slot of the session is freed |
| Segments.Service.FreeDeviceSegments | src/radeon3d_service.c:309-329 | clears exactly the session slots, nothing without a board |
| Segments.RunKeeps | src/radeon3d_service.c:1030-1119 | over every run in which no access to the mask is torn and no close is stale, bits cleared one by one included, the mask is the disjoint union of the slots of this attachment |
| Segments.ClearsAddUp | src/radeon3d_service.c:318-328 | undisturbed, the bits cleared one by one add up to the close |
| Segments.StoreClearExactly | src/radeon3d_service.c:323 | an access to the mask in two halves keeps it right if and only if what was read still is the mask, apart from the bit being cleared |
| Segments.StoreAllocExactly | src/radeon3d_service.c:1073 | and one that allocates, if and only if what was read still is the mask |
| Segments.NeverShared | src/radeon3d_service.c:1063-1079 | no segment is held twice |
| Segments.OneAttachment | src/radeon3d_service.c:1030-1119 | within one attachment and without divided accesses every run is allowed |
| Segments.CloseExact | src/radeon_accel.c:1513-1526 | a close keeps the mask right if and only if the session is of this attachment or none of its indices is set |
| Segments.StaleCloseShares | src/radeon3d_service.c:318-328 | a session left from before a re-attachment closes, and a segment in use is handed out again |
| Segments.TornClearShares | src/radeon3d_service.c:318-328 | a concrete run in which a torn clear loses the bit of another session, whose segment is handed out again |
| Samples.BeginKeeps | src/radeon3d_service.c:219-222 | clearing Seq first marks the slot before its payload changes |
| Samples.StepKeeps | src/radeon3d_service.c:203-234 | every writer and reader step keeps slots and copies consistent |
| Samples.KnownBegun | tools/radeon3dinfo.c:30-37 | a number the reader was told about has been written, so stale memory is never looked at |
| Samples.AcceptedIsPublished | tools/radeon3dinfo.c:31-40 | in every interleaving an accepted copy is exactly the published sample, before one turn of the counter |
| Samples.SeenIsRecent | tools/radeon3dinfo.c:30-33 | a sample seen by the reader was among the latest 1024 |
| Samples.RecordPublishes | src/radeon3d_service.c:203-235 | recording a sample puts it into its slot under its number, counts it, and touches no other slot |
| Samples.ReadBackExactly | tools/radeon3dinfo.c:30-40 | while nothing is being written a reader accepts exactly the samples of the last 1024 numbers, unchanged |
| Samples.LoopEndsExactly | tools/radeon3dinfo.c:30-31 | the 32-bit loop makes a bounded number of turns if and only if the newest number is not 0xffffffff |
| Samples.DumpSamples | tools/radeon3dinfo.c:30-40 | below that it ends, having looked once at each number from the oldest still kept to the newest, in order |
| Pll.CalculatePll | src/radeon_mode.c:266-328 | what is stored makes the card divide by its largest divider that keeps the oscillator in range, with the rounded feedback and the clock both yield, within the DVI and half-percent limits; it fails exactly when no such setting exists |
| Pll.ChosenIsFirst | src/radeon_mode.c:291-304 | the divisor is the first feasible one of the table; limits on the result |
| Pll.FirstIsLargest | src/radeon_mode.c:269-304 | which is the largest divider of the card, by its register codes, that keeps the oscillator in range |
| Pll.Accuracy | src/radeon_mode.c:306-317 | the absolute difference between actual and requested is at most 500 * RefClockKHz / (RefDivider * divisor) + 500.5 Hz when no quotient is cut to 32 bits |
| Pll.MeetsNear | src/radeon_mode.c:306-328 | the stored clock is that near to the request with the divider decoded from the stored code |
| Pll.DecodesExactly | src/radeon_mode.c:330-339 | DecodePll recovers feedback and code |
| Pll.ResolvePixelClock | src/radeon_mode.c:879-903 | the index of the rung, with a setting that meets its clock, or -1 exactly when a check fails |
| Pll.NearestIsNearest | src/radeon_mode.c:892-899 | no rung is nearer, at both ends too |
| Pll.NearestExactly | src/radeon_mode.c:892-899 | the choice is the nearest rung if and only if the rounding does not wrap or the ladder has a single rung |
| Pll.SixtyFiveMegahertz | src/radeon_mode.c:291-317 | a concrete card and request for which the calculation succeeds with nothing truncated |
| Pll.WrapsOnlyAtZero | src/radeon_mode.c:895-896 | the rounding wraps only for a ladder from zero and a request in the last 125 kHz of 32 bits |
| Pll.ResolvesToItself | src/radeon_mode.c:905-917 | resolving undoes RadeonGetPixelClock |
| Pll.LadderFits | src/radeon_mode.c:69-99 | every rung lies between minimum and maximum, with no wrap |
| Pll.LadderEnds | src/radeon_mode.c:69-99 | the ladder begins at the first whole step the largest divider reaches and ends at the tightest limit |
| Pll.RungsExactly | src/radeon_mode.c:905-917 | the ladder has exactly the steps up to its maximum, and any other index is an error |

## Left out

- Real MMIO, PCI configuration, caches, the aperture read line, delays and CIA timing: only register reads and writes remain, and what the hardware answers is an oracle.
- Microcode, R200 3D state and the contents of trusted indirect buffers. Trusted streams are taken not to write SCRATCH_REG0 themselves, and a disabled processor not to touch its abandoned queue.
- A card that is reset while work is queued is modelled as having abandoned that work; what a hung engine does in between is not part of this model.
- Board transitions are atomic: each runs under BoardLock from start to end. The two semaphores themselves are modelled in `sessions.dfy`, where the effect of a call on the board is left open.
- rtg.library serialises Picasso96 operations; two of them never interleave in this model.
- The lease holder's own ring writer is an environment that may change the ring and SCRATCH_REG0 while a lease is live; fence and exclusion properties are stated for lease-free runs, as the code gives no more.
- Board.Bounded: a named hypothesis of the fence and exclusion theorems, not a test of the driver: fewer than 0x5eadbeef entries are incomplete.  The ring contributes at most two for each of 16383 streams (`CpRing.Ring.StreamsInRing`); how much the processor has fetched and not completed is the hardware's.
- The contents of queued work: a stream may change any register of the 2D baseline except the host-endian bit of DP_DATATYPE, which the comment at `src/radeon3d_service.c:1343-1346` also relies on.
- AuxSurfaces.RunKeeps: freeing one entry of the table is one step; the code stores its offset and then its size, without ServiceLock when a session closes (`src/radeon3d_service.c:393-394` and 524), and what another access sees between the two stores is not part of this model.  Sessions of the same attachment but an earlier generation are not told apart: they may free what they hold, and the model lets them allocate too.
- SessionSafety.LockOrder: a ServiceLock region is one step of the model and releases the lock where it ends, so that it does not ask for BoardLock inside is read off the code rather than proved.
- Radeon3DSubmit does not recheck its session after RadeonPrepare3D, unlike the indirect dispatch; the model keeps that difference.
- Sessions.FindDevice: memory of a freed record is never reused for another record in the model, so a dangling reference would show as a freed record.
- Hidden effects of one state register on another (writing the GUI master register also loads defaults on some chips) are not part of the register file in `engine_state.dfy`; a write always succeeds.
- EngineState.Engine.SubmitHostTemplate: the cache flush and idle wait that accompany the host data setup are not registers of the model.
- Raster operations are arbitrary functions of source and destination pixel, which covers all sixteen minterms and every write mask; patterns, templates and lines are modelled as far as their registers go.
- PlanarPasses.SubmitPass: a timeout of the command FIFO is not part of the pixel model; the board model covers it as a failed pass.
- Pll.Accuracy: inputs whose intermediate quotients exceed 32 bits are excluded by a condition on those quotients, because the code cuts them silently.
- Samples.AcceptedIsPublished: excludes readers that stay in one slot while 2^32 samples are recorded.
- Template staging (TEXTSTAGE), documented as broken in the repository, and the carve offset it assumes.
- COMBIOS parsing, cold-card tables, CRTC, DAC and TMDS programming, palette, panning, DPMS and cursor upload: bounded table walks or straight-line writes.
- AmigaOS plumbing (library open and close, message ports, timer.device, memory allocation failures beyond a refused carve), debug counters, probes and benchmark tools.
