# Display driver models

This project models the stateful cores of the Qualcomm SDE display driver and proves
what they keep over every call and every run. Register programming is left out; the
arbiters, protocols, tables and allocators around it are modelled from the code.

| module | what it models |
|---|---|
| `RscArbiter` | the resource state coordinator: client votes merged into one state, counted power resources |
| `AtomicCommit` | the commit protocol: claimed masks, dispatch to workers, completion, ownership of the commit |
| `PropertyStore` | property lookup, dirty queue, state pool, blob references |
| `HdcpSession`, `HdcpStreams` | the HDCP 2.2 transmitter: message order, failure path, stream table (sections 2.2 to 2.5 of "HDCP System: Mapping HDCP to DisplayPort, Revision 2.2") |
| `EventLog` | the debug event ring and its dump |
| `RegisterDump` | sizing and filling of the register dump buffer |
| `EventRegistry` | per-file event registration |
| `DsiPll` | fractional-N arithmetic of the 20nm DSI PLL |
| `PowerHandle` | staged power-on with rollback, regulator and clock loops |
| `RefreshRate` | the refresh-rate table of the notifier |
| `EdidAudio` | audio data blocks of a CEA extension (section 7.5 of CEA-861-E) |

Most modules have two layers. The C code's objects are classes with the same fields and
loops, whose methods are proved equal to functions on values; the properties, including
those over whole runs, are lemmas about these functions. The commit protocol is a state
machine over the steps of all callers and workers. TrustZone, regulators, clocks, bus
requests, hardware operations, memory allocation, waits and interrupts answer through
parameters, so every statement holds for all their answers unless it says otherwise.

Where a promise does not hold of the code, the code is kept, a concrete input shows the
failure and the exact condition is proved:

- the coordinator goes to IDLE under an external display when the last clock client
  releases (`UpdateArbitratesIff`, `ReleaseCanStrandExternal`), and a pending vsync wait
  hides a failed hardware update (`HwFailureHiddenIff`, `PendingVsyncHidesHwFailure`);
- a failed blob lookup drops the reference but keeps the pointer (`SetBlobConservesIff`,
  `LookupFailureBreaksConservation`);
- dumping a block twice in one request can overrun the buffer (`DumpArrayFitsIff`,
  `RunDumpsIff`, `RepeatedBlockOverflows`);
- a failed power-on releases hardware-controlled regulators it never took, and keeps an
  RSC vote the coordinator recorded before failing (`Power.Enable`, `LostRegulator`,
  `KeptRscVote`);
- the two block searches of the EDID parser disagree on some extensions
  (`WalksAgreeIff`, `ZeroEndDiffers`);
- a disable that fails leaves an event on that nobody listens to (`RunExact`, `FailedDisableSticks`);
- the first locality retry after a receive timeout is handed over as the session key
  message (`RetryHandsToldIff`);
- the audio extraction loop does not end on a sixth audio block or one of 31 bytes after
  some audio was collected (`EndsIff`, `LongBlockJams`);
- a pending vsync wait that times out leaves the hardware in clock state with current_state
  elsewhere (`HwAgreesIff`, `TimeoutStrandsHardware`), and destroying the primary client
  leaves its pointer behind (`RunPrimaryIff`, `DestroyedPrimaryDangles`);
- more displays than panels, or a display with id 0 and two free nodes, break the
  refresh-rate table (`RunHoldsIff`, `ExtraDisplayForgotten`);
- the divisor of a PLL reference of 2^30 Hz or more is cut to 32 bits, and some rate comes
  back too high (`PromisedIff`, `WideReferenceFar`).

Check everything with `dafny verify dfyconfig.toml`.

## Model

| member | source | states |
|---|---|---|
| `RscArbiter.UpdateArbitratesIff` | kernel/msm-4.19/techpack/display/msm/sde_rsc.c:867-972 | from a state in which current_state is the arbitration of the client list, a request leaves it so exactly when `Honoured`, a condition read off the list and the request, holds (hardware and vsync waits succeeding) |
| `RscArbiter.RunFromStartArbitrates` | kernel/msm-4.19/techpack/display/msm/sde_rsc.c:480-972 | in every run of create, update, destroy, vote and vsync steps with disciplined clients, current_state is: external in CLK gives CLK, else VID, else CMD, else a clock client in CLK gives CLK, else IDLE |
| `RscArbiter.RunArbitrates` | kernel/msm-4.19/techpack/display/msm/sde_rsc.c:480-972 | the same from any arbitrated state |
| `RscArbiter.StepArbitrates` | kernel/msm-4.19/techpack/display/msm/sde_rsc.c:867-972 | each single step keeps it |
| `RscArbiter.DisciplinedIsHonoured` | kernel/msm-4.19/techpack/display/msm/sde_rsc.c:488-497 | one primary, alone asking for CMD or VID and never for CLK, and a clock client whenever an external display is in CLK, are enough for the exact condition |
| `RscArbiter.LandingByFlags` | kernel/msm-4.19/techpack/display/msm/sde_rsc.c:554-753 | where each of the four requests lands, as a function of the four list flags |
| `RscArbiter.ScanMeaning` | kernel/msm-4.19/techpack/display/msm/sde_rsc.c:710-723 | the flags of the list walk are true exactly when a client of that kind and state exists |
| `RscArbiter.CreateArbitrates` | kernel/msm-4.19/techpack/display/msm/sde_rsc.c:85-126 | a new client does not change the arbitration |
| `RscArbiter.DestroyArbitrates` | kernel/msm-4.19/techpack/display/msm/sde_rsc.c:136-180 | destroying a client, voting or not, keeps the arbitration |
| `RscArbiter.RunBalanced` | kernel/msm-4.19/techpack/display/msm/sde_rsc.c:400-478 | over every run, whatever is asked and answered: refcount is 1 exactly when the state is not IDLE and the enable on leaving IDLE worked, else 0; regulators, bus vote and clocks are on exactly while it is positive |
| `RscArbiter.UpdateBalanced` | kernel/msm-4.19/techpack/display/msm/sde_rsc.c:909-968 | one state update keeps that balance |
| `RscArbiter.ReleaseStrandsExternal` | kernel/msm-4.19/techpack/display/msm/sde_rsc.c:728-753 | the last clock client releasing while an external display is in CLK ends in IDLE, against the arbitration |
| `RscArbiter.ReleaseCanStrandExternal` | kernel/msm-4.19/techpack/display/msm/sde_rsc.c:728-753 | the smallest client list on which that happens |
| `RscArbiter.PendingVsyncHidesHwFailure` | kernel/msm-4.19/techpack/display/msm/sde_rsc.c:580-615 | the plain case, a clock request: the failure is reported as success and the state moves to CLK |
| `RscArbiter.HwFailureHiddenIff` | kernel/msm-4.19/techpack/display/msm/sde_rsc.c:580-615 | a hardware update that fails, or has no operation, is still reported as a switch to CLK exactly when the clock switch is reached, directly or as the fallback of an IDLE request, and an older vsync wait was pending and ends in time |
| `RscArbiter.HwAgreesIff` | kernel/msm-4.19/techpack/display/msm/sde_rsc.c:554-619 | where current_state is what the hardware last accepted, a request keeps that exactly unless an older vsync wait answers for the hardware and answers otherwise: a failure reported as a switch, or a switch reported as a timeout |
| `RscArbiter.RunHwAgrees` | kernel/msm-4.19/techpack/display/msm/sde_rsc.c:867-972 | in every run without such a request current_state is what the hardware last accepted |
| `RscArbiter.RunPrimaryIff` | kernel/msm-4.19/techpack/display/msm/sde_rsc.c:136-180 | in every run primary_client is NULL or a listed client exactly unless the primary was destroyed and no primary created since |
| `RscArbiter.TimeoutStrandsHardware` | kernel/msm-4.19/techpack/display/msm/sde_rsc.c:595-615 | the smallest state on which a timeout leaves the hardware in CLK alone |
| `RscArbiter.DestroyedPrimaryDangles` | kernel/msm-4.19/techpack/display/msm/sde_rsc.c:174-178 | the shortest run that leaves primary_client behind |
| `RscArbiter.VsyncExact` | kernel/msm-4.19/techpack/display/msm/sde_rsc.c:580-615 | what a request leaves in rsc_vsync_wait: one more when a working switch from CMD or VID to CLK is given a wait pointer, what the wait left where one was due, unchanged otherwise |
| `RscArbiter.RunVsync` | kernel/msm-4.19/techpack/display/msm/sde_rsc.c:554-619 | over every run the count is the waits asked for, less the vsyncs seen and the waits made |
| `RscArbiter.AnswerExact` | kernel/msm-4.19/techpack/display/msm/sde_rsc.c:936-968 | what the caller is told: an error for a panel request by anyone but the primary and for a failing hardware update, a timeout where the wait decides, success otherwise, blocked requests included |
| `RscArbiter.ClientsExact` | kernel/msm-4.19/techpack/display/msm/sde_rsc.c:85-180 | a new client comes first, idle and in its kind; a request changes the mode of its own client only, whatever it is answered; a destroyed one is taken out alone |
| `RscArbiter.EnableIff` | kernel/msm-4.19/techpack/display/msm/sde_rsc.c:430-478 | an enable fails exactly when it is the first and a stage fails |
| `RscArbiter.UpdateRemembers` | kernel/msm-4.19/techpack/display/msm/sde_rsc.c:909-912 | exactly a request made in IDLE decides whether an enable has failed |
| `RscArbiter.RunHoldsOne` | kernel/msm-4.19/techpack/display/msm/sde_rsc.c:400-478 | when every supply works, refcount is 1 exactly while the state is not IDLE |
| `RscArbiter.SdeRsc.ClientCreate` | kernel/msm-4.19/techpack/display/msm/sde_rsc.c:85-126 | the new client heads the list in IDLE and, if primary, becomes primary_client |
| `RscArbiter.SdeRsc.ExternalBlocks` | kernel/msm-4.19/techpack/display/msm/sde_rsc.c:519-523 | the early-exit walk finds an external client in CLK exactly when the list has one |
| `RscArbiter.SdeRsc.ScanVotes` | kernel/msm-4.19/techpack/display/msm/sde_rsc.c:710-723 | the else-if walk computes all four flags |
| `RscArbiter.SdeRsc.SwitchPanelMode` | kernel/msm-4.19/techpack/display/msm/sde_rsc.c:480-552 | refines the command and video switch |
| `RscArbiter.SdeRsc.SwitchClk` | kernel/msm-4.19/techpack/display/msm/sde_rsc.c:554-619 | refines the clock switch and its vsync count |
| `RscArbiter.SdeRsc.SwitchIdle` | kernel/msm-4.19/techpack/display/msm/sde_rsc.c:695-753 | refines the idle switch and its three fallbacks |
| `RscArbiter.SdeRsc.EnableResources` | kernel/msm-4.19/techpack/display/msm/sde_rsc.c:430-478 | refines the counted enable with rollback |
| `RscArbiter.SdeRsc.DisableResources` | kernel/msm-4.19/techpack/display/msm/sde_rsc.c:400-428 | refines the counted disable |
| `RscArbiter.SdeRsc.ClientStateUpdate` | kernel/msm-4.19/techpack/display/msm/sde_rsc.c:867-972 | refines the whole request: vote recorded first, resources around it, return code |
| `RscArbiter.SdeRsc.ClientTriggerVote` | kernel/msm-4.19/techpack/display/msm/sde_rsc.c:1014-1078 | takes and drops one reference; succeeds exactly when the enable does and, for a vote that is sent, the command set is free |
| `RscArbiter.SdeRsc.ClientDestroy` | kernel/msm-4.19/techpack/display/msm/sde_rsc.c:136-180 | moves a voting client to IDLE, then unlinks it |
| `AtomicCommit.CommitExclusion` | kernel/msm-4.19/techpack/display/msm/msm_atomic.c:766-809 | at every step of every schedule the pending masks are exactly the unions of the masks of commits between start and destroy, which are pairwise disjoint |
| `AtomicCommit.CommitWindows` | kernel/msm-4.19/techpack/display/msm/msm_atomic.c:166-182 | swap-to-destroy windows of commits that share a crtc or plane never overlap |
| `AtomicCommit.ExactlyOnce` | kernel/msm-4.19/techpack/display/msm/msm_atomic.c:587-683 | no run touches or frees a freed commit; a settled accepted commit was completed once and freed once, an interrupted one freed once and never completed |
| `AtomicCommit.CopyDecides` | kernel/msm-4.19/techpack/display/msm/msm_atomic.c:630-683 | a nonblocking commit that the worker has finished with is gone before the submitter decides; the decision goes by the copy of nonblock, without a fault |
| `AtomicCommit.FreedBeforeDecision` | kernel/msm-4.19/techpack/display/msm/msm_atomic.c:630-683 | a run in which that happens |
| `AtomicCommit.CommitPlaced` | kernel/msm-4.19/techpack/display/msm/msm_atomic.c:633-676 | in every run a commit is queued and run on the worker of its first crtc with a table entry that has a thread, and in its caller exactly if there is none |
| `AtomicCommit.CommitLogged` | kernel/msm-4.19/techpack/display/msm/msm_atomic.c:587-683 | in every run a worker runs one commit at a time, the log has one swap and one release for each commit that got there and nothing else, and every commit is as submitted |
| `AtomicCommit.FaultExact` | kernel/msm-4.19/techpack/display/msm/msm_atomic.c:545-683 | a step on a freed commit is a fault, but for the interrupt, the swap and the decision by the copy |
| `AtomicCommit.StoppedIsSettled` | kernel/msm-4.19/techpack/display/msm/msm_atomic.c:697-820 | a run with no step left has settled every commit, freed all and cleared both masks |
| `AtomicCommit.BoundedSteps` | kernel/msm-4.19/techpack/display/msm/msm_atomic.c:697-820 | without new submissions each commit takes at most its rank in steps, so every run gets there |
| `AtomicCommit.Progress` | kernel/msm-4.19/techpack/display/msm/msm_atomic.c:766-809 | while a commit is unsettled some step is enabled: no deadlock on the masks or a worker |
| `AtomicCommit.StepShrinks` | kernel/msm-4.19/techpack/display/msm/msm_atomic.c:621-683 | each step lowers the rank of its commit and leaves the others alone |
| `AtomicCommit.RunInv` | kernel/msm-4.19/techpack/display/msm/msm_atomic.c:697-820 | every step of every caller and worker keeps the joint invariant |
| `AtomicCommit.DoExclusive` | kernel/msm-4.19/techpack/display/msm/msm_atomic.c:166-182 | one step keeps the masks exact and disjoint |
| `AtomicCommit.DoWindows` | kernel/msm-4.19/techpack/display/msm/msm_atomic.c:777-809 | one step keeps the windows apart |
| `AtomicCommit.NextTaskOk` | kernel/msm-4.19/techpack/display/msm/msm_atomic.c:545-683 | one step of one commit: counters exact, only claim and destroy change ownership, no step on a freed commit |
| `AtomicCommit.TargetMeaning` | kernel/msm-4.19/techpack/display/msm/msm_atomic.c:633-662 | a commit goes to worker j exactly when j is the first table entry of the first crtc that has one, and has a thread |
| `AtomicCommit.DispatchLoop` | kernel/msm-4.19/techpack/display/msm/msm_atomic.c:633-662 | the nested loops queue the work at most once, on that worker |
| `PropertyStore.RunConserves` | kernel/msm-4.19/techpack/display/msm/msm_prop.c:359-565 | over every run of alloc, reset of fresh states, duplicate, set and destroy, the references on each blob equal the live slots pointing at it, and pool, live and handed-out states stay apart |
| `PropertyStore.AllocNeverHandsOutLive` | kernel/msm-4.19/techpack/display/msm/msm_prop.c:441-480 | after every run, alloc returns a state nobody holds and removes it from the pool |
| `PropertyStore.SetBlobConservesIff` | kernel/msm-4.19/techpack/display/msm/msm_prop.c:359-419 | setting a blob property conserves exactly when the id is found or zero or the slot held nothing |
| `PropertyStore.LookupFailureBreaksConservation` | kernel/msm-4.19/techpack/display/msm/msm_prop.c:389-392 | a one-slot state on which a failed lookup breaks it |
| `PropertyStore.ResetConservesIff` | kernel/msm-4.19/techpack/display/msm/msm_prop.c:482-513 | reset conserves exactly when the state is not live or holds no blob |
| `PropertyStore.DuplicateConserves` | kernel/msm-4.19/techpack/display/msm/msm_prop.c:515-543 | duplicating takes one reference per copied slot |
| `PropertyStore.DestroyConserves` | kernel/msm-4.19/techpack/display/msm/msm_prop.c:545-565 | destroying drops one reference per slot |
| `PropertyStore.SetPlainConserves` | kernel/msm-4.19/techpack/display/msm/msm_prop.c:405-413 | a plain value never changes references |
| `PropertyStore.SetPlainExact` | kernel/msm-4.19/techpack/display/msm/msm_prop.c:405-413 | the slot holds the value and the property is queued exactly if it changed or is volatile; nothing else changes |
| `PropertyStore.SetBlobExact` | kernel/msm-4.19/techpack/display/msm/msm_prop.c:373-413 | the slot holds the found blob and its id, or 0; the old pointer stays exactly when a nonzero id was not found; the queue follows the value |
| `PropertyStore.DirtyKeepsValues` | kernel/msm-4.19/techpack/display/msm/msm_prop.c:69-122 | dirtying and popping never touch values, blobs or other states |
| `PropertyStore.ResetExact` | kernel/msm-4.19/techpack/display/msm/msm_prop.c:482-513 | every default, no blob, clean |
| `PropertyStore.DuplicateExact` | kernel/msm-4.19/techpack/display/msm/msm_prop.c:515-543 | values and blobs of the source, clean; the source keeps its dirty list |
| `PropertyStore.DestroyExact` | kernel/msm-4.19/techpack/display/msm/msm_prop.c:469-480 | the state goes to the pool while that has fewer than two |
| `PropertyStore.AllocExact` | kernel/msm-4.19/techpack/display/msm/msm_prop.c:441-462 | the pool is asked first and hands out the state that came last |
| `PropertyStore.FindFrom` | kernel/msm-4.19/techpack/display/msm/msm_prop.c:305-343 | the wrapping search finds a match exactly when there is one, the first going down from the start, and agrees with a linear search on distinct entries |
| `PropertyStore.DirtyQueueIsFifo` | kernel/msm-4.19/techpack/display/msm/msm_prop.c:103-122 | dirtying any list appends each new index once, in order of first dirtying |
| `PropertyStore.DirtyQueueIsSet` | kernel/msm-4.19/techpack/display/msm/msm_prop.c:103-136 | dirtying keeps the queue duplicate-free and it then holds exactly the earlier and the dirtied indices |
| `PropertyStore.PlayIsFifo` | kernel/msm-4.19/techpack/display/msm/msm_prop.c:69-122 | for any mix of dirtying and popping, what was popped followed by what is queued is what entered, in order |
| `PropertyStore.RunDirtyOk` | kernel/msm-4.19/techpack/display/msm/msm_prop.c:69-136 | over every run, in every live state, the linked nodes that is_dirty looks at are exactly the queued properties, each queued once |
| `PropertyStore.MarkIsPush` | kernel/msm-4.19/techpack/display/msm/msm_prop.c:103-122 | linking an unlinked node appends its index, a linked one changes nothing, and the two views stay in step |
| `PropertyStore.PopIsTail` | kernel/msm-4.19/techpack/display/msm/msm_prop.c:69-93 | popping unlinks the first node and the two views stay in step |
| `PropertyStore.PropertyInfo.Index` | kernel/msm-4.19/techpack/display/msm/msm_prop.c:305-343 | recent_idx moves to the match, stays otherwise and in range |
| `PropertyStore.PropertyInfo.SetDirty` | kernel/msm-4.19/techpack/display/msm/msm_prop.c:345-357 | out-of-range and already dirty indices change nothing |
| `PropertyStore.PropertyInfo.IsDirty` | kernel/msm-4.19/techpack/display/msm/msm_prop.c:124-136 | the node of a property is linked exactly when its index is in the dirty list |
| `PropertyStore.PropertyInfo.PopDirty` | kernel/msm-4.19/techpack/display/msm/msm_prop.c:69-93 | pops the oldest dirty index, or -EAGAIN |
| `PropertyStore.PropertyInfo.AtomicSet` | kernel/msm-4.19/techpack/display/msm/msm_prop.c:359-419 | refines the blob and the plain set, error path included; the stored value and the dirty list are stated outright |
| `PropertyStore.PropertyInfo.AllocState` | kernel/msm-4.19/techpack/display/msm/msm_prop.c:441-462 | refines the pool take |
| `PropertyStore.PropertyInfo.ResetState` | kernel/msm-4.19/techpack/display/msm/msm_prop.c:482-513 | every slot gets its default and no blob |
| `PropertyStore.PropertyInfo.DuplicateState` | kernel/msm-4.19/techpack/display/msm/msm_prop.c:515-543 | refines the duplication loop |
| `PropertyStore.PropertyInfo.DestroyState` | kernel/msm-4.19/techpack/display/msm/msm_prop.c:545-565 | refines the release loop and the two-slot pool |
| `HdcpSession.MessageOrder` | kernel/msm-4.19/techpack/display/msm/sde_hdcp_2x.c:151-205 | in every run each handed message has what it needs handed earlier in the same session: SKE_SEND_EKS after LC_SEND_L_PRIME, LC_INIT after AKE_SEND_H_PRIME, AKE_SEND_H_PRIME after AKE_SEND_CERT, and the others |
| `HdcpSession.FailsOncePerSession` | kernel/msm-4.19/techpack/display/msm/sde_hdcp_2x.c:347-374 | between two STATUS_FAILED there is a START |
| `HdcpSession.HandedHasParts` | kernel/msm-4.19/techpack/display/msm/sde_hdcp_2x.c:102-149 | every handed message has a nonempty table entry |
| `HdcpSession.MessageSucceeds` | kernel/msm-4.19/techpack/display/msm/sde_hdcp_2x.c:151-205 | in every run a session opens with AKE_INIT and each message is one the protocol lets follow the message before; stream management is only sent, the list of receivers never |
| `HdcpSession.AuthenticatedSession` | kernel/msm-4.19/techpack/display/msm/sde_hdcp_2x.c:470-532 | in every run an authenticated session was reported as a success and has not failed, and no success follows a failure in a session |
| `HdcpSession.NextMessageInOrder` | kernel/msm-4.19/techpack/display/msm/sde_hdcp_2x.c:151-205 | the unknown-message branch is unreachable and the next message is in order |
| `HdcpSession.RunInv` | kernel/msm-4.19/techpack/display/msm/sde_hdcp_2x.c:949-1020 | whatever TrustZone, the sink and the callers do, every command keeps the trace lawful |
| `HdcpSession.SeenClosed` | kernel/msm-4.19/techpack/display/msm/sde_hdcp_2x.c:151-205 | a lawful session contains the whole chain behind each of its messages |
| `HdcpSession.WakeupInv` | kernel/msm-4.19/techpack/display/msm/sde_hdcp_2x.c:275-307 | handing over, with its wait, keeps the law |
| `HdcpSession.MsgSentInv` | kernel/msm-4.19/techpack/display/msm/sde_hdcp_2x.c:470-532 | the sent handler keeps the law |
| `HdcpSession.MsgRecvdInv` | kernel/msm-4.19/techpack/display/msm/sde_hdcp_2x.c:583-695 | the received handler keeps the law |
| `HdcpSession.QueryStreamInv` | kernel/msm-4.19/techpack/display/msm/sde_hdcp_2x.c:420-459 | the stream query, which rewrites last_msg, keeps the law |
| `HdcpSession.CleanInv` | kernel/msm-4.19/techpack/display/msm/sde_hdcp_2x.c:347-374 | the failure path keeps the law and turns hdcp_off on |
| `HdcpSession.AkePhase` | kernel/msm-4.19/techpack/display/msm/sde_hdcp_2x.c:542-557 | witness: the exact messages of one authentication with a sink that answers |
| `HdcpSession.KeyPhase` | kernel/msm-4.19/techpack/display/msm/sde_hdcp_2x.c:583-695 | witness: the exact messages from the locality check to encryption on and the link poll |
| `HdcpSession.RepeaterPhase` | kernel/msm-4.19/techpack/display/msm/sde_hdcp_2x.c:470-665 | witness: the exact messages of a repeater from the session key over the list of receivers and the streams to success |
| `HdcpSession.StartOutcome` | kernel/msm-4.19/techpack/display/msm/sde_hdcp_2x.c:882-889 | what START resets, and what it does not |
| `HdcpSession.RepliesAsTold` | kernel/msm-4.19/techpack/display/msm/sde_hdcp_2x.c:583-695 | the transport is handed exactly the message TrustZone answered with |
| `HdcpSession.PairingOutcome` | kernel/msm-4.19/techpack/display/msm/sde_hdcp_2x.c:626-631 | with a new master key the pairing information is received first |
| `HdcpSession.SentAsksFor` | kernel/msm-4.19/techpack/display/msm/sde_hdcp_2x.c:525-531 | after a sent message its answer is received |
| `HdcpSession.EksOutcome` | kernel/msm-4.19/techpack/display/msm/sde_hdcp_2x.c:498-512 | a repeater is polled for its list, a receiver is sent the type |
| `HdcpSession.TypeOutcome` | kernel/msm-4.19/techpack/display/msm/sde_hdcp_2x.c:482-497 | success is reported exactly when encryption went on, and the link is polled |
| `HdcpSession.AckOutcome` | kernel/msm-4.19/techpack/display/msm/sde_hdcp_2x.c:513-524 | the streams are managed once, then the link is polled |
| `HdcpSession.ReadyOutcome` | kernel/msm-4.19/techpack/display/msm/sde_hdcp_2x.c:640-665 | encryption goes on unless the streams changed or it is on already; its failure ends the session |
| `HdcpSession.QueryOutcome` | kernel/msm-4.19/techpack/display/msm/sde_hdcp_2x.c:420-459 | stream management is sent exactly for a repeater that is authenticated or being acknowledged |
| `HdcpSession.StreamsOutcome` | kernel/msm-4.19/techpack/display/msm/sde_hdcp_2x.c:753-760 | changed streams are queried at once when authenticated, remembered while stream management is under way |
| `HdcpSession.LevelOutcome` | kernel/msm-4.19/techpack/display/msm/sde_hdcp_2x.c:1005-1011 | a receiver is sent the type, a repeater is queried |
| `HdcpSession.FailureOutcome` | kernel/msm-4.19/techpack/display/msm/sde_hdcp_2x.c:534-581 | a failing TrustZone call ends a session that is not stopped, once |
| `HdcpSession.AbortOutcome` | kernel/msm-4.19/techpack/display/msm/sde_hdcp_2x.c:347-374 | so do a stop command, a failed transfer and a failing link |
| `HdcpSession.StopOutcome` | kernel/msm-4.19/techpack/display/msm/sde_hdcp_2x.c:398-459 | a stop during a call is seen before a query, a type or a retry is sent |
| `HdcpSession.StoppedReply` | kernel/msm-4.19/techpack/display/msm/sde_hdcp_2x.c:684-690 | and before a reply is sent |
| `HdcpSession.SilenceOutcome` | kernel/msm-4.19/techpack/display/msm/sde_hdcp_2x.c:207-251 | a silent sink ends the session for exactly three messages, one of them before authentication only; a stop ends it without a report |
| `HdcpSession.RetryHandsToldIff` | kernel/msm-4.19/techpack/display/msm/sde_hdcp_2x.c:559-581 | a locality retry after a timeout is handed over as such exactly after the pairing step or with the retry flag up; the first one goes out as the session key message |
| `HdcpSession.Transmitter.GetNextMessage` | kernel/msm-4.19/techpack/display/msm/sde_hdcp_2x.c:151-205 | refines the message switch with its fall-throughs |
| `HdcpSession.Transmitter.Wakeup` | kernel/msm-4.19/techpack/display/msm/sde_hdcp_2x.c:275-307 | terminates, and equals the closed form |
| `HdcpSession.Transmitter.WaitResponse` | kernel/msm-4.19/techpack/display/msm/sde_hdcp_2x.c:207-251 | terminates, and equals the closed form |
| `HdcpSession.Transmitter.CleanUp` | kernel/msm-4.19/techpack/display/msm/sde_hdcp_2x.c:347-374 | re-enters with hdcp_off set, so the mutual recursion ends; tells the client once |
| `HdcpSession.Transmitter.QueryStreams` | kernel/msm-4.19/techpack/display/msm/sde_hdcp_2x.c:420-459 | refines the stream query, with the second look at hdcp_off |
| `HdcpSession.Transmitter.SendStreamType` | kernel/msm-4.19/techpack/display/msm/sde_hdcp_2x.c:398-418 | refines the type message, with the second look at hdcp_off |
| `HdcpSession.Transmitter.MessageSent` | kernel/msm-4.19/techpack/display/msm/sde_hdcp_2x.c:470-532 | refines the sent handler |
| `HdcpSession.Transmitter.TypeSent` | kernel/msm-4.19/techpack/display/msm/sde_hdcp_2x.c:482-497 | refines the end of the type message: encryption, success report, poll |
| `HdcpSession.Transmitter.EksSent` | kernel/msm-4.19/techpack/display/msm/sde_hdcp_2x.c:498-512 | refines the end of the session key: a repeater is polled unless stopped, otherwise the type is sent |
| `HdcpSession.Transmitter.AckSent` | kernel/msm-4.19/techpack/display/msm/sde_hdcp_2x.c:513-524 | refines the end of the acknowledgement: streams once, then poll |
| `HdcpSession.Transmitter.StreamsReady` | kernel/msm-4.19/techpack/display/msm/sde_hdcp_2x.c:640-665 | refines the stream-ready branch |
| `HdcpSession.Transmitter.ReplyTo` | kernel/msm-4.19/techpack/display/msm/sde_hdcp_2x.c:626-695 | refines what follows a processed sink message |
| `HdcpSession.Transmitter.InitTrustZone` | kernel/msm-4.19/techpack/display/msm/sde_hdcp_2x.c:534-540 | refines the session start in TrustZone |
| `HdcpSession.Transmitter.MessageReceived` | kernel/msm-4.19/techpack/display/msm/sde_hdcp_2x.c:583-695 | refines the received handler, a stop during processing included |
| `HdcpSession.Transmitter.StartAuthentication` | kernel/msm-4.19/techpack/display/msm/sde_hdcp_2x.c:542-557 | refines the start of authentication |
| `HdcpSession.Transmitter.ReceiveTimedOut` | kernel/msm-4.19/techpack/display/msm/sde_hdcp_2x.c:559-581 | refines the receive timeout, a stop during it included |
| `HdcpSession.Transmitter.Request` | kernel/msm-4.19/techpack/display/msm/sde_hdcp_2x.c:876-894 | refines START and STOP on the caller thread |
| `HdcpStreams.RunInv` | kernel/msm-4.19/techpack/display/msm/sde_hdcp_2x.c:697-832 | under any interleaving of add, remove, manage and clean, given nonzero and new handles: no two entries share stream id and virtual channel, stream_count is the list length modulo 256, inactive entries have nonzero handles, the handles open in TrustZone are exactly the nonzero handles listed |
| `HdcpStreams.RunCounted` | kernel/msm-4.19/techpack/display/msm/sde_hdcp_2x.c:697-832 | whatever TrustZone answers, stream_count is the list length modulo 256 after every run |
| `HdcpStreams.RunHeldIff` | kernel/msm-4.19/techpack/display/msm/sde_hdcp_2x.c:697-832 | in every interleaving the invariant holds throughout, after each turn of each step, exactly when every handle TrustZone hands out is nonzero and not open already |
| `HdcpStreams.CountExactIff` | kernel/msm-4.19/techpack/display/msm/sde_hdcp_2x.c:347-374 | the 8-bit stream_count equals the list length exactly below 256 entries |
| `HdcpStreams.ManageOneInvIff` | kernel/msm-4.19/techpack/display/msm/sde_hdcp_2x.c:728-756 | one turn of the manage loop keeps the invariant exactly when the handle it is given, if any, is nonzero and not open already |
| `HdcpStreams.ManageFromInv` | kernel/msm-4.19/techpack/display/msm/sde_hdcp_2x.c:720-762 | manage keeps the invariant when every handle is such |
| `HdcpStreams.ManageLeavesActive` | kernel/msm-4.19/techpack/display/msm/sde_hdcp_2x.c:720-762 | manage leaves active entries only |
| `HdcpStreams.ManageKeepsActive` | kernel/msm-4.19/techpack/display/msm/sde_hdcp_2x.c:720-762 | manage keeps exactly the active entries, in order |
| `HdcpStreams.AddExact` | kernel/msm-4.19/techpack/display/msm/sde_hdcp_2x.c:799-832 | old entries stay, new ones come first, active and unopened, for exactly the keys that were missing and found memory |
| `HdcpStreams.RemoveExact` | kernel/msm-4.19/techpack/display/msm/sde_hdcp_2x.c:764-797 | exactly the entries of the given keys go, or stay inactive when they are open |
| `HdcpStreams.ManageKeepsOpen` | kernel/msm-4.19/techpack/display/msm/sde_hdcp_2x.c:728-756 | an active open entry is left alone |
| `HdcpStreams.ManageOpensAll` | kernel/msm-4.19/techpack/display/msm/sde_hdcp_2x.c:740-752 | when every open succeeds every entry left is open |
| `HdcpStreams.AsksIffChanged` | kernel/msm-4.19/techpack/display/msm/sde_hdcp_2x.c:720-762 | with such handles the streams are queried exactly when the list changed |
| `HdcpStreams.AddOneInv` | kernel/msm-4.19/techpack/display/msm/sde_hdcp_2x.c:799-832 | adding keeps the invariant and adds exactly that key, when memory allows |
| `HdcpStreams.RemoveOneInv` | kernel/msm-4.19/techpack/display/msm/sde_hdcp_2x.c:764-797 | removing unlinks an unopened entry and marks an opened one inactive |
| `HdcpStreams.CleanInv` | kernel/msm-4.19/techpack/display/msm/sde_hdcp_2x.c:347-374 | clean closes every open handle, empties the list and zeroes the count |
| `HdcpStreams.StreamTable.Present` | kernel/msm-4.19/techpack/display/msm/sde_hdcp_2x.c:697-718 | first position of a key, or the length |
| `HdcpStreams.StreamTable.AddStreams` | kernel/msm-4.19/techpack/display/msm/sde_hdcp_2x.c:799-832 | refines the add loop |
| `HdcpStreams.StreamTable.RemoveStreams` | kernel/msm-4.19/techpack/display/msm/sde_hdcp_2x.c:764-797 | refines the remove loop |
| `HdcpStreams.StreamTable.ManageStreams` | kernel/msm-4.19/techpack/display/msm/sde_hdcp_2x.c:720-762 | refines the manage loop, for any answers; the query flag is set exactly when an entry was closed or an open succeeded |
| `HdcpStreams.StreamTable.CleanStreams` | kernel/msm-4.19/techpack/display/msm/sde_hdcp_2x.c:347-367 | refines the clean loop |
| `EventLog.EvtLog.Log` | kernel/msm-4.19/techpack/display/msm/sde_dbg_evtlog.c:58-97 | logs the collected values; curr and last are the history length modulo 8192 and 2^32, and slot i mod 8192 holds event i for the last 8192 events |
| `EventLog.EvtLog.DumpAll` | kernel/msm-4.19/techpack/display/msm/sde_dbg_evtlog.c:183-196 | prints min(256, last - next) lines, in order from the newest as of its start, each the content of its slot when read, and leaves next at that start; exactly those events if at most 8192 - 256 arrive meanwhile |
| `EventLog.EvtLog.DumpToBuffer` | kernel/msm-4.19/techpack/display/msm/sde_dbg_evtlog.c:138-178 | one call prints the slot of first, or nothing exactly when next is last_dump |
| `EventLog.EvtLog.DumpCalcRange` | kernel/msm-4.19/techpack/display/msm/sde_dbg_evtlog.c:105-132 | refines the marker arithmetic on 32-bit counters |
| `EventLog.CalcRangeUnwrapped` | kernel/msm-4.19/techpack/display/msm/sde_dbg_evtlog.c:105-132 | without wrap the range is the newest entries not printed yet |
| `EventLog.CalcRangeBehind` | kernel/msm-4.19/techpack/display/msm/sde_dbg_evtlog.c:105-132 | with the end marker behind, the end keeps its slot, the start keeps its slot unless more than max are due, and at most max slots are covered |
| `EventLog.RingPush` | kernel/msm-4.19/techpack/display/msm/sde_dbg_evtlog.c:58-97 | writing slot curr keeps the ring equal to the tail of the history |
| `EventLog.NewestAtIsItselfIff` | kernel/msm-4.19/techpack/display/msm/sde_dbg_evtlog.c:147-149 | a slot still holds event i exactly while at most 8192 events follow its start |
| `EventLog.NewestAtUnique` | kernel/msm-4.19/techpack/display/msm/sde_dbg_evtlog.c:147-149 | the event a slot holds is determined |
| `EventLog.SlotHolds` | kernel/msm-4.19/techpack/display/msm/sde_dbg_evtlog.c:147-149 | reading the slot of event i gives the newest event that landed there |
| `EventLog.LinesFaithful` | kernel/msm-4.19/techpack/display/msm/sde_dbg_evtlog.c:183-196 | few enough arrivals make the printed lines the newest events of the start |
| `EventLog.CollectData` | kernel/msm-4.19/techpack/display/msm/sde_dbg_evtlog.c:85-95 | the values before the limiter, at most fifteen |
| `RegisterDump.RunDumpsIff` | kernel/msm-4.19/techpack/display/msm/sde_dbg.c:3531-3558 | over any sequence of requests every header and register claim is inside its buffer and claims of a buffer do not overlap exactly when every request fitted in its turn; every remembered slot is its own claim in any case |
| `RegisterDump.RunDumpsOk` | kernel/msm-4.19/techpack/display/msm/sde_dbg.c:3201-3221 | with distinct block names, a total below 2^32 and no block twice in a list, every run of full and listed dumps fits, so all claims are inside and apart |
| `RegisterDump.DumpArrayFitsIff` | kernel/msm-4.19/techpack/display/msm/sde_dbg.c:3531-3558 | one request ends exactly at the room it takes, and keeps the buffers in order exactly when that is at most the 32-bit size measured |
| `RegisterDump.DumpBlocksOk` | kernel/msm-4.19/techpack/display/msm/sde_dbg.c:3112-3173 | the end address of a dump: every visit takes the headers of the nodes it does not skip, the first visit of a block also the slots not claimed yet |
| `RegisterDump.DumpRangesOk` | kernel/msm-4.19/techpack/display/msm/sde_dbg.c:3132-3157 | the same for a range list, which has no slot left to claim afterwards |
| `RegisterDump.SlotsApart` | kernel/msm-4.19/techpack/display/msm/sde_dbg.c:2922-3005 | a node, in whichever dump its slot was claimed, never writes over a header or another node |
| `RegisterDump.DistinctVisitsTake` | kernel/msm-4.19/techpack/display/msm/sde_dbg.c:3058-3071 | visiting each block at most once takes no more than the measured total |
| `RegisterDump.DistinctNamesVisitOnce` | kernel/msm-4.19/techpack/display/msm/sde_dbg.c:3180-3221 | with distinct names the full dump visits each block once |
| `RegisterDump.AllVisitsExact` | kernel/msm-4.19/techpack/display/msm/sde_dbg.c:3201-3221 | the full dump visits exactly the named blocks, in a secure dump without vbif_rt, vbif_nrt and wb_2 |
| `RegisterDump.FirstDumpTakesAll` | kernel/msm-4.19/techpack/display/msm/sde_dbg.c:3030-3056 | a first dump to memory takes exactly the measured size of a block |
| `RegisterDump.RepeatedBlockOverflows` | kernel/msm-4.19/techpack/display/msm/sde_dbg.c:3552-3557 | a block alone in the list and requested twice runs 120 bytes past the buffer |
| `RegisterDump.RepeatedBlockFits` | kernel/msm-4.19/techpack/display/msm/sde_dbg.c:3552-3557 | the same request beside a second measured block stays inside |
| `RegisterDump.DumpLengthInside` | kernel/msm-4.19/techpack/display/msm/sde_dbg.c:3013-3028 | a range that is read satisfies start + length <= max_offset, and ends at the smaller of its end and max_offset |
| `RegisterDump.DumpLengthExact` | kernel/msm-4.19/techpack/display/msm/sde_dbg.c:3013-3028 | the whole block without a range, else the part of the range below max_offset, nothing when there is none |
| `RegisterDump.SortPermutes` | kernel/msm-4.19/techpack/display/msm/sde_dbg.c:3073-3085 | sorting keeps the nodes |
| `RegisterDump.SortKeeps` | kernel/msm-4.19/techpack/display/msm/sde_dbg.c:3073-3085 | sorting keeps the room measured and taken |
| `RegisterDump.SortOrders` | kernel/msm-4.19/techpack/display/msm/sde_dbg.c:3073-3085 | nodes are dumped in the order of their start offsets |
| `RegisterDump.DumpReg` | kernel/msm-4.19/techpack/display/msm/sde_dbg.c:2979-3001 | one word per word that starts inside the range, zero for the rest of the last line |
| `RegisterDump.WordsInsideIff` | kernel/msm-4.19/techpack/display/msm/sde_dbg.c:2979-3001 | all of each word read lies inside the range exactly when its length is a whole number of words |
| `RegisterDump.SlotCoversIff` | kernel/msm-4.19/techpack/display/msm/sde_dbg.c:2949-2950 | the slot claimed, rounded in 32 bits, holds the lines written exactly for lengths up to 2^32 - 16 |
| `RegisterDump.GetBlkSize` | kernel/msm-4.19/techpack/display/msm/sde_dbg.c:3030-3056 | the size of a block, modulo 2^32, for every max_offset |
| `RegisterDump.GetDumpSize` | kernel/msm-4.19/techpack/display/msm/sde_dbg.c:3058-3071 | the total, modulo 2^32 |
| `RegisterDump.RegDumper.DumpNode` | kernel/msm-4.19/techpack/display/msm/sde_dbg.c:2922-2977 | refines the headers and the once-only slot |
| `RegisterDump.RegDumper.DumpList` | kernel/msm-4.19/techpack/display/msm/sde_dbg.c:3130-3157 | refines the range loop with its secure exclusions |
| `RegisterDump.RegDumper.DumpByRanges` | kernel/msm-4.19/techpack/display/msm/sde_dbg.c:3112-3173 | refines the block dump |
| `RegisterDump.RegDumper.Lookup` | kernel/msm-4.19/techpack/display/msm/sde_dbg.c:3180-3196 | first block of a name |
| `RegisterDump.RegDumper.DumpAll` | kernel/msm-4.19/techpack/display/msm/sde_dbg.c:3201-3221 | refines the full dump, each named block looked up again |
| `RegisterDump.RegDumper.DumpArrayOf` | kernel/msm-4.19/techpack/display/msm/sde_dbg.c:3531-3558 | refines sizing and dumping a list |
| `EventRegistry.RunExact` | kernel/msm-4.19/techpack/display/msm/msm_drv.c:1268-1501 | in every run, whatever fails: the enabled pairs are exactly those some client node names and those a failed disable left on; calls alternate per pair exactly unless such a pair is enabled again; no file holds a pair twice |
| `EventRegistry.RunInvIff` | kernel/msm-4.19/techpack/display/msm/msm_drv.c:1268-1501 | a pair is enabled exactly while named, for all pairs, exactly when no failed disable left one on |
| `EventRegistry.RunInv` | kernel/msm-4.19/techpack/display/msm/msm_drv.c:1268-1501 | with disables that succeed: a pair is enabled exactly while some client node names it, enable and disable calls strictly alternate per pair, and no file holds a pair twice |
| `EventRegistry.FailedDisableSticks` | kernel/msm-4.19/techpack/display/msm/msm_drv.c:1400-1403 | the shortest run that leaves a pair on without a client |
| `EventRegistry.RegisterInv` | kernel/msm-4.19/techpack/display/msm/msm_drv.c:1289-1361 | registering keeps the invariant, whatever fails |
| `EventRegistry.DeregisterInvIff` | kernel/msm-4.19/techpack/display/msm/msm_drv.c:1363-1405 | deregistering keeps the display core in step exactly unless the last client leaves and the disable fails |
| `EventRegistry.ReleaseInvIff` | kernel/msm-4.19/techpack/display/msm/msm_drv.c:1461-1501 | closing a file keeps the display core in step exactly when the disable of every pair no other file names succeeds |
| `EventRegistry.ReleaseLoopExact` | kernel/msm-4.19/techpack/display/msm/msm_drv.c:1482-1498 | the release loop, whichever disables fail |
| `EventRegistry.RegisterAnswers` | kernel/msm-4.19/techpack/display/msm/msm_drv.c:1289-1361 | Ok exactly when the client is appended, the list is left alone otherwise, and each failure has its answer |
| `EventRegistry.DeregisterAnswers` | kernel/msm-4.19/techpack/display/msm/msm_drv.c:1363-1405 | exactly that client is removed whenever it was listed, whatever the disable answers |
| `EventRegistry.RunHoldingFromStart` | kernel/msm-4.19/techpack/display/msm/msm_drv.c:1268-1501 | in every run the list holds exactly the clients answered Ok and neither deregistered nor released since |
| `EventRegistry.RecountIsZero` | kernel/msm-4.19/techpack/display/msm/msm_drv.c:1487-1493 | the recount over the temporary list always adds zero |
| `EventRegistry.CountIsNamed` | kernel/msm-4.19/techpack/display/msm/msm_drv.c:1268-1287 | the count is positive exactly when some node names the pair |
| `EventRegistry.Registrar.ClientCount` | kernel/msm-4.19/techpack/display/msm/msm_drv.c:1268-1287 | refines the counting loop |
| `EventRegistry.Registrar.RegisterEvent` | kernel/msm-4.19/techpack/display/msm/msm_drv.c:1289-1361 | refines the register ioctl |
| `EventRegistry.Registrar.DeregisterEvent` | kernel/msm-4.19/techpack/display/msm/msm_drv.c:1363-1405 | refines the deregister ioctl |
| `EventRegistry.Registrar.ReleaseFile` | kernel/msm-4.19/techpack/display/msm/msm_drv.c:1461-1501 | refines the two loops of release |
| `DsiPll.PromisedIff` | kernel/msm-4.19/techpack/display/pll/dsi_20nm_pll_util.c:609-661 | every rate below 512 times a reference can be set and comes back within the bound exactly when the reference is below 2^30, for every reference whose double fits 64 bits |
| `DsiPll.RoundTripIff` | kernel/msm-4.19/techpack/display/pll/dsi_20nm_pll_util.c:609-661 | for such a reference a rate reads back as r <= vco with vco - r < 2 * ref / 2^20 + 1 exactly when vco < 512 * ref |
| `DsiPll.WideReferenceFar` | kernel/msm-4.19/techpack/display/pll/dsi_20nm_pll_util.c:624-625 | from 2^30 on the divisor is cut to 32 bits, and a rate of one divisor, or of 255, reads back as 2 * ref or 510 * ref, which is too high |
| `DsiPll.PackReadsBack` | kernel/msm-4.19/techpack/display/pll/dsi_20nm_pll_util.c:629-634 | the registers keep 20 fractional and 8 integer bits, of negative parts too |
| `DsiPll.PackMarks` | kernel/msm-4.19/techpack/display/pll/dsi_20nm_pll_util.c:630-634 | the marker bit above each field is set |
| `DsiPll.GetRateOfCalc` | kernel/msm-4.19/techpack/display/pll/dsi_20nm_pll_util.c:799-814 | what is read back, in 64-bit arithmetic, is the rate of the kept bits |
| `DsiPll.ReadBackIff` | kernel/msm-4.19/techpack/display/pll/dsi_20nm_pll_util.c:799-814 | the bound holds exactly when the integer part fits |
| `DsiPll.FitsIff` | kernel/msm-4.19/techpack/display/pll/dsi_20nm_pll_util.c:629-631 | the integer part fits exactly below 512 times the reference |
| `PowerHandle.Power.Enable` | kernel/msm-4.19/techpack/display/msm/sde_power_handle.c:724-813 | a failure at any step gives back every clock count; the data bus votes exactly when their withdrawals are accepted, the register bus vote likewise, the regulator counts exactly when just the releases of software-controlled regulators succeed, the RSC vote exactly unless the RSC failed after recording it or refuses the release |
| `PowerHandle.Power.PowerCycle` | kernel/msm-4.19/techpack/display/msm/sde_power_handle.c:703-813 | a power-on followed, when it worked, by a power-off gives each of them back under the same conditions |
| `PowerHandle.Power.Disable` | kernel/msm-4.19/techpack/display/msm/sde_power_handle.c:769-790 | every count and vote is withdrawn once, where the release succeeds |
| `PowerHandle.Power.EnableSupplies` | kernel/msm-4.19/techpack/display/msm/sde_power_handle.c:740-803 | power-on from the regulators up, with its part of the rollback |
| `PowerHandle.Power.EnableClocks` | kernel/msm-4.19/techpack/display/msm/sde_power_handle.c:747-801 | power-on from the register bus up, with its part of the rollback |
| `PowerHandle.Power.VoteBuses` | kernel/msm-4.19/techpack/display/msm/sde_power_handle.c:728-739 | votes up to the first bus without a handle, stops at the first without a table or refused |
| `PowerHandle.Power.UnvoteBuses` | kernel/msm-4.19/techpack/display/msm/sde_power_handle.c:782-787 | withdraws the votes below a bus |
| `PowerHandle.Power.SetQuota` | kernel/msm-4.19/techpack/display/msm/sde_power_handle.c:286-345 | nothing is asked without a handle or, for a quota, a table; otherwise the slot index moves even when the request is refused |
| `PowerHandle.NextUseCaseMoves` | kernel/msm-4.19/techpack/display/msm/sde_power_handle.c:323-324 | a new quota lands in a different use case exactly when the bus was off or there are at least two to alternate |
| `PowerHandle.LostRegulator` | kernel/msm-4.19/techpack/display/msm/sde_power_handle.c:740-809 | a hardware-controlled regulator before a failing one: its count changes |
| `PowerHandle.KeptRscVote` | kernel/msm-4.19/techpack/display/msm/sde_power_handle.c:753-757 | an RSC update that fails after recording: the vote stays |
| `PowerHandle.Power.EnableVreg` | kernel/msm-4.19/techpack/display/msm/sde_io_util.c:230-306 | on failure the counts come back exactly when just the releases of software-controlled regulators before the failing one succeed |
| `PowerHandle.Power.DisableVreg` | kernel/msm-4.19/techpack/display/msm/sde_io_util.c:270-285 | each regulator not under hardware control is released once |
| `PowerHandle.Power.EnableClk` | kernel/msm-4.19/techpack/display/msm/sde_io_util.c:436-480 | all clocks or none, the recursive call undoing exactly the earlier ones |
| `RefreshRate.RunHoldsIff` | kernel/msm-4.19/techpack/display/msm/msm_notifier.c:41-102 | over every run the node list equals the map from display id to latest rounded rate, as a prefix with distinct ids, exactly when every display found room |
| `RefreshRate.CallbackHoldsIff` | kernel/msm-4.19/techpack/display/msm/msm_notifier.c:78-91 | the same for one callback |
| `RefreshRate.EnoughPanels` | kernel/msm-4.19/techpack/display/msm/msm_notifier.c:115-171 | nonzero ids, no more of them than panels, are enough, and then max_fps is the maximum of the map |
| `RefreshRate.MaxFpsIsPeak` | kernel/msm-4.19/techpack/display/msm/msm_notifier.c:89-99 | max_fps is the maximum of the map |
| `RefreshRate.ToldOnChange` | kernel/msm-4.19/techpack/display/msm/msm_notifier.c:93-99 | displays having had room, the scheduler hears the maximum of the latest rates after each callback, repeats left out, and nothing else |
| `RefreshRate.ToldIsMaxFps` | kernel/msm-4.19/techpack/display/msm/msm_notifier.c:93-99 | on any run its view is max_fps, with no two equal calls in a row |
| `RefreshRate.WalkAt` | kernel/msm-4.19/techpack/display/msm/msm_notifier.c:78-91 | which nodes a callback writes, on any list |
| `RefreshRate.Ceiling` | kernel/msm-4.19/techpack/display/msm/msm_notifier.c:56-69 | the least supported rate that covers the reported one; 60 when none is reported |
| `RefreshRate.ExtraDisplayForgotten` | kernel/msm-4.19/techpack/display/msm/msm_notifier.c:78-91 | with one panel and two displays the second is counted once and then forgotten |
| `RefreshRate.ActiveDisplays.FpsChanged` | kernel/msm-4.19/techpack/display/msm/msm_notifier.c:41-102 | refines the callback loop |
| `EdidAudio.EndsIff` | kernel/msm-4.19/techpack/display/msm/sde_edid_parser.c:442-463 | the extraction loop ends exactly when no block is refused after some audio was collected, and then holds the payloads of the accepted blocks; otherwise it goes round for ever |
| `EdidAudio.ExtractsWhatWasEncoded` | kernel/msm-4.19/techpack/display/msm/sde_edid_parser.c:417-465 | if data blocks tile [4, in_buf[2]) with at most 5 audio blocks of at most 30 bytes, the loop ends with the in-order concatenation of their payloads, at most 150 bytes |
| `EdidAudio.LongBlockJams` | kernel/msm-4.19/techpack/display/msm/sde_edid_parser.c:447-455 | an extension on which the loop never ends |
| `EdidAudio.TiledBlocks` | kernel/msm-4.19/techpack/display/msm/sde_edid_parser.c:161-196 | on an exact tiling the walk finds the audio blocks and nothing else |
| `EdidAudio.TakenFits` | kernel/msm-4.19/techpack/display/msm/sde_edid_parser.c:457-462 | the 150-byte buffer is never overrun, jammed or not |
| `EdidAudio.FindBlock` | kernel/msm-4.19/techpack/display/msm/sde_edid_parser.c:161-196 | returns the first block of the kind that the walk from the offset can return, or none exactly when there is none |
| `EdidAudio.WalksAgreeIff` | kernel/msm-4.19/techpack/display/msm/sde_edid_parser.c:71-87 | on every extension the audio walk and the sde_for_each_cea_db walk return the same blocks exactly when: the end is inside the block and no last block of the kind runs one byte over; or the end is given as 0 and the bytes up to 127 hold none; or the revision is below 3 or the end past 127 and the audio walk finds none |
| `EdidAudio.WalksOverlap` | kernel/msm-4.19/techpack/display/msm/sde_edid_parser.c:84-87 | over the same bytes the audio walk finds what the macro does, and one more exactly when a last block of the kind runs one byte over |
| `EdidAudio.ZeroEndDiffers` | kernel/msm-4.19/techpack/display/msm/sde_edid_parser.c:71-82 | an audio header after an end of 0 is seen by the macro only |
| `EdidAudio.FindTagged` | kernel/msm-4.19/techpack/display/msm/sde_edid_parser.c:132-158 | first block of the tag that the macro visits, or none, with the revision and offset tests |
| `EdidAudio.BlocksInside` | kernel/msm-4.19/techpack/display/msm/sde_edid_parser.c:179-192 | a returned block starts in the collection and its payload can be read |
| `EdidAudio.EdidCtrl.ExtractAudio` | kernel/msm-4.19/techpack/display/msm/sde_edid_parser.c:417-465 | buffer, size and zero fill equal the reference data; a jam is reported |

## Left out

- Register sequences (sde_rsc_hw.c, sde_rsc_hw_v3.c, DP PLL files), hardware polling, delays, tracing and log text: no property beyond fixed writes and bounded retries.
- Resource coordinator: rpmh solver mode, timers, post_poms and the wait_vblank_crtc_id output do not feed back into the state; the bandwidth numbers of a vote are not modelled, and NULL arguments are left to the types.
- Commit protocol: masks are sets of bit numbers, the order in which one worker takes its queue is left open, and the plane fences and DRM helper calls inside complete_commit are one step.
- AtomicCommit.DispatchLoop: is the only loop of the commit path kept as a loop; the rest of msm_atomic_commit is split into the steps other threads can observe, so it is modelled on values.
- Property store: a dirty list is the sequence of its indices and one link flag per node; the 32-bit truncation of a blob id is inside the lookup result.
- HDCP session: another thread's STOP takes effect between commands, around waits, and during TrustZone calls before the handler looks at hdcp_off again, and a START never comes in the middle of a command; hdcp2 library set-up, encryption forcing and transaction delays are not modelled.
- HdcpStreams.RunInv: add, remove, manage and clean are atomic steps, and the handles TrustZone hands out are nonzero and new; RunHeldIff says that this is exactly what it takes; that a re-added stream is reopened is not claimed, since adding skips an entry marked inactive.
- Event log: filters and the enable mask are booleans; formatting, time deltas and sde_dbg_debugfs_open, which rewrites last, are not modelled.
- EventLog.EvtLog.DumpAll: requires fewer than 2^32 events in all, because the counters wrap.
- EventLog.EvtLog.DumpToBuffer: the same, and a first call of a dump before the others; DumpCalcRange covers every counter value.
- RegisterDump.RegDumper.DumpArrayOf: the allocation succeeds.
- RegisterDump.RegDumper.DumpAll: the allocation succeeds.
- RegisterDump.RunDumpsOk: assumes that the sizes sum to less than 2^32, which RunDumpsIff does not; list_sort is a stable insertion, and start offsets are below 2^31, so that their 32-bit difference has the right sign.
- Event registry: each ioctl and release is one step, since the code drops its lock between counting and updating; delivery of events is not modelled.
- EventRegistry.RunInv: assumes that disable calls succeed; RunExact and RunInvIff do not.
- DsiPll.RoundTripIff: is for reference rates below 2^30 Hz, the ones the 32-bit divisor of div_s64 can hold; PromisedIff covers the others.
- DsiPll.PromisedIff: leaves out references of 2^62 Hz and more, whose double overflows its 64-bit parameter; the lock-compare registers are not modelled.
- 20nm ndiv and bypass-mux setters: they OR into registers without clearing, so there is no round trip to state.
- PowerHandle.Power.Enable: the per-path split of bandwidth into bus vectors is not modelled, and bus tables have at least two use cases.
- Refresh-rate table: the fps enumeration is defined in kernel headers that are not part of this model; its values are taken to be the rates in their names.
- EdidAudio.EdidCtrl.ExtractAudio: assumes that the byte at in_buf[2] can be read, which the driver does not check; finding the extension inside the EDID is not modelled.
- Other EDID extractors, including the Y420 capability map, whose bit indexing does not follow the per-byte layout.
- GEM, SMMU, framebuffer and HDCP 1.x code, probe, bind, device-tree parsing and notifier registration: mostly calls into frameworks that are not shown.
