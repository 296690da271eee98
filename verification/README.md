# Clocks, events and configuration of the linuxptp daemon

A Dafny model of the parts of the PTP operator and its daemon in which state, order or arithmetic matters,
with proofs of what they keep. `dafny verify dfyconfig.toml` checks all of it.

Each module follows one component. Where the component updates fields in place, the module has step
functions on values, a class whose methods do the same to its fields and are proved to compute those
functions, and lemmas about the functions and about whole runs.

- `BoundaryClock`, `HoldoverTimers`: a boundary clock, and the clock beside its timer goroutines and the
  expiries they post, delivered in any order and arbitrarily late.
- `ClockReplacement`: boundary clocks that replace one another under one name, their timers outliving them.
- `TelecomClock`, `DownstreamAnnounce`: a telecom boundary clock, and any number of them beside the fetches
  they start, through resets and replacements under the same name.
- `HaClock`: a High Availability clock, composed of boundary clocks.
- `ClockManager`: the serialized event loop over all of them, with a shared OS clock.
- `PubSub`, `EventCache`: the subscription slots and the event cache of the cloud event proxy.
- `Ptp4lConf`: parser and printer of the ptp4l configuration.
- `PhcTime`: exact 64-bit time arithmetic and its text form.
- `NtpFailover`, `PinControl`, `AliasStore`: the failover state machine, DPLL pin commands, interface aliases.
- `DaemonSetMerge`, `Recommend`: the two writers of the DaemonSet, and the selection of profiles.
- `SyncStates`, `Ipc`, `OsClocks`, `Texts`, `Sequences`, `Options`: what they share.

## What is false, and exactly when it holds

- A T-TSC that locks again keeps its token, so a result of an earlier LOCKED episode can be applied; a clock
  takes a new token on locking if and only if it is not a T-TSC (`RelockTakesTokenExactly`, and for a run
  `ResultCrossesEpisodes`).
- The expiry of a removed clock can end the holdover of its successor (`PredecessorEndsHoldover`); a new clock is
  protected if and only if nothing of its predecessors is pending when it is added, or no offset can lock it
  (`AddedIsProtectedExactly`).
- A reset of one clock sets the shared OS clock to FREERUN without telling the other clocks
  (`ResetClockAgreesExactly`, `OtherClockAgreesExactly`).
- A High Availability clock without members is in FREERUN after Reset, while the best of no states is NOTSET
  (`ResetKeepsComposed`).
- NOTSET and FREERUN are published under one name, so a consumer can see a state twice in a row
  (`FreerunIsPublishedTwice`), if and only if an OS clock sample takes an overall state between the two
  (`NameRepeatsExactly`).
- A reset changes the state of a clock without a signal (`ChangeIsSignalled`).
- A profile name with line breaks can change what is read back (`RoundTripsExactly`), and a repeated header of
  the only interface changes the inferred clock type (`ClockTypeSurvivesExactly`, `RepeatedHeaderChangesType`).
- An eligible recommendation without priority makes the selection panic (`GetRecommendProfilesNames`).
- A negative tolerance makes every healthy line fail over (`NegativeToleranceFailsOver`).
- A healthy line does not bring a failover machine back that was disturbed and rests out of specification
  (`HealthyLineRecovers`); it rests there only after the expiry was moved between two turns of a stale line
  (`NeverRestsOutOfSpec`, `PutOffRestsOutOfSpec`).
- With an interface under two PHCs the aliases can depend on the order of the walk, if and only if some
  interface is torn between its groups (`OrderMattersExactly`).
- An alias can be the name of an interface that has none (`SharedExactly`).

## Where code and comments disagree

The model follows the code.

- `pkg/linuxptp-daemon/pkg/clock/bc.go:125-128`: a lost source is said to drop a clock that is not LOCKED to
  FREERUN; the code leaves its state, NOTSET included.
- `pkg/linuxptp-daemon/pkg/clock/tbc.go:299-305`: class 135 cannot be restored within a holdover.
- `pkg/linuxptp-daemon/pkg/clock/tbc.go:255-258`: upstream and downstream time properties always agree, so this
  branch is never taken.
- `pkg/apply/merge.go:409-411`: security annotations are said to carry hashes of the secrets; neither writer
  sets one, so they stay as they were when the object was created.

## Model

| member | source | states |
|---|---|---|
| `SyncStates.WorstOfIsMinimum` | pkg/linuxptp-daemon/pkg/clock/clock.go:58-69 | Worst-of is the minimum of NOTSET < FREERUN < HOLDOVER < LOCKED, is commutative, and UNKNOWN does not degrade the other operand. |
| `SyncStates.BestOfIsMaximum` | pkg/linuxptp-daemon/pkg/clock/ha.go:261-273 | Best-of is the maximum of the same chain, and commutes exactly but for NOTSET with UNKNOWN. |
| `SyncStates.WorstOfDistributesOverBest` | pkg/linuxptp-daemon/pkg/clock/ha.go:85-96 | Suppressing every member state by the OS clock and then taking the best gives the worst of the best member state and the OS clock. |
| `Ipc.FilteredHasNoSyncState` | pkg/linuxptp-daemon/pkg/clock/ha.go:91-96 | No sync_state of a member passes the filter of a High Availability clock. |
| `Ipc.FilterKeepsOthers` | pkg/linuxptp-daemon/pkg/clock/ha.go:89-96 | Every other message passes: what passes are exactly the other messages, at ascending places of what was sent. |
| `Ipc.FilterCounts` | pkg/linuxptp-daemon/pkg/clock/ha.go:89-96 | Each of them passes as often as it was sent. |
| `BoundaryClock.EventKeepsValid` | pkg/linuxptp-daemon/pkg/clock/bc.go:80-168 | After every event a cancel channel is held if and only if the clock is in HOLDOVER, and it is the one of the current generation. |
| `BoundaryClock.EventMovesTimer` | pkg/linuxptp-daemon/pkg/clock/bc.go:117-149 | A timer starts exactly when a LOCKED clock loses its source and is cancelled exactly when a sample ends its holdover; the generation moves exactly then. |
| `BoundaryClock.EventDecidesState` | pkg/linuxptp-daemon/pkg/clock/bc.go:80-152 | Which event leads to which state, from every state; only the expiry of the current generation ends a holdover without a sample. |
| `BoundaryClock.EventReconciles` | pkg/linuxptp-daemon/pkg/clock/bc.go:212-224 | After every event the overall state is the worst of the clock and the OS clock, and is published exactly when it changed. |
| `BoundaryClock.EventKinds` | pkg/linuxptp-daemon/pkg/clock/bc.go:80-149 | Which events are a lost source, which are a sample and with which offset, by their data alone. |
| `BoundaryClock.EventSends` | pkg/linuxptp-daemon/pkg/clock/bc.go:212-224 | All that an event sends, by the clock before and after it: the new state exactly if it changed, on the interface of the event or the recorded one for an expiry, then the class if it changed, then the overall state if it changed. |
| `BoundaryClock.EventSendsPortState` | pkg/linuxptp-daemon/pkg/clock/bc.go:212-221 | The ptp_state messages of an event are exactly the new state if it changed, and none otherwise. |
| `BoundaryClock.EventRecords` | pkg/linuxptp-daemon/pkg/clock/bc.go:80-116 | Which class and which follower interface every event leaves. |
| `BoundaryClock.ResetClears` | pkg/linuxptp-daemon/pkg/clock/bc.go:243-252 | A reset closes the channel held, moves the generation exactly then, and leaves nothing else of the clock. |
| `BoundaryClock.BCClock.AddEvent` | pkg/linuxptp-daemon/pkg/clock/bc.go:80-152 | The clock in place takes every event as the step functions say: new fields, messages, channel closed, timer started; it panics exactly on a DPLL sample without the offset it needs. |
| `BoundaryClock.BCClock.HandleHoldoverExpired` | pkg/linuxptp-daemon/pkg/clock/bc.go:159-168 | An expiry acts only in HOLDOVER and at the current generation. |
| `BoundaryClock.BCClock.ArmHoldoverTimer` | pkg/linuxptp-daemon/pkg/clock/bc.go:172-199 | Arming cancels what is armed, takes the next generation and starts a timer that carries it. |
| `BoundaryClock.BCClock.CancelHoldoverTimer` | pkg/linuxptp-daemon/pkg/clock/bc.go:204-210 | Cancelling closes the held channel, if there is one, and only then moves the generation. |
| `BoundaryClock.BCClock.UpdateClockClass` | pkg/linuxptp-daemon/pkg/clock/bc.go:254-265 | The clock class is published exactly when it changes. |
| `BoundaryClock.BCClock.Reset` | pkg/linuxptp-daemon/pkg/clock/bc.go:243-252 | Reset cancels the timer, and sets the clock and the shared OS clock to FREERUN. |
| `HoldoverTimers.RunKeepsInv` | pkg/linuxptp-daemon/pkg/clock/bc.go:117-210 | In every reachable state of a clock with its timers and posted expiries: HOLDOVER if and only if a channel is held, no generation above the current one, and at most one timer or expiry of the current one, exactly one in HOLDOVER when there is a loopback function. |
| `HoldoverTimers.NoChannelClosedTwice` | pkg/linuxptp-daemon/pkg/clock/bc.go:201-210 | No run closes a cancel channel twice. |
| `HoldoverTimers.HoldoverHasOneOrigin` | pkg/linuxptp-daemon/pkg/clock/bc.go:122-149 | Every holdover was entered by one lost source, and since then there was no sample and no reset. |
| `HoldoverTimers.ExpiryEndsItsOwnEpisode` | pkg/linuxptp-daemon/pkg/clock/bc.go:154-168 | An expiry that drops the clock to FREERUN was posted by the timer of the very holdover it ends. |
| `HoldoverTimers.ExpiryTakesEffectExactly` | pkg/linuxptp-daemon/pkg/clock/bc.go:159-168 | A delivered expiry changes the clock if and only if the clock is in HOLDOVER at that generation. |
| `HoldoverTimers.HoldoverCanExpire` | pkg/linuxptp-daemon/pkg/clock/bc.go:172-199 | A holdover always has exactly one expiry under way that ends it; every other queued expiry does nothing. |
| `HoldoverTimers.ConsumerKnowsClock` | pkg/linuxptp-daemon/pkg/clock/bc.go:80-224 | Over every run a consumer that reads all messages of a clock since its start or last reset knows its state, class and overall state. |
| `HoldoverTimers.LastPortStateIsState` | pkg/linuxptp-daemon/pkg/clock/bc.go:212-224 | Over every run the last ptp_state since the start or the last reset is the state of the clock; without one the state is that of the start or the reset. |
| `ClockReplacement.HoldoverHasOneOrigin` | pkg/linuxptp-daemon/pkg/clock/bc.go:117-168 | With clocks that replace one another under a name, every holdover of the registered one was still entered by one lost source, undisturbed since. |
| `ClockReplacement.EndsForeignHoldoverExactly` | pkg/linuxptp-daemon/pkg/clock/bc.go:154-168 | Over all paths with replacements: an expiry ends a holdover that it did not arm if and only if it comes from another clock and finds the registered one in HOLDOVER at its own generation. |
| `ClockReplacement.ProtectedExactly` | pkg/linuxptp-daemon/pkg/clockmgr/clockmgr.go:163-175 | Whatever comes, every expiry that ends a holdover of a new clock is its own if and only if no timer or posted expiry of the clocks before it is left, or no offset can lock it. |
| `ClockReplacement.AddedIsProtectedExactly` | pkg/linuxptp-daemon/pkg/clockmgr/clockmgr.go:111-130 | The same for every run, by what can be checked before the clock is added. |
| `ClockReplacement.PredecessorEndsHoldover` | pkg/linuxptp-daemon/pkg/clockmgr/clockmgr.go:163-175 | A run from the start: a clock is removed with its timer running, and its expiry ends the holdover of its successor, whose own timer still runs. |
| `HaClock.MemberEventKeepsComposed` | pkg/linuxptp-daemon/pkg/clock/ha.go:162-165 | After every member event the composite state is the best of the member states, whatever the order of the members. |
| `HaClock.SystemClockKeepsComposed` | pkg/linuxptp-daemon/pkg/clock/ha.go:177-182 | A change of the OS clock keeps the composite state and reconciles the overall state. |
| `HaClock.ResetKeepsComposed` | pkg/linuxptp-daemon/pkg/clock/ha.go:184-203 | Reset leaves the composite the best of its members if and only if it has members. |
| `HaClock.MemberEventReconciles` | pkg/linuxptp-daemon/pkg/clock/ha.go:91-96 | A member event publishes at most one sync_state, the composite one, exactly when it changes. |
| `HaClock.OverallIsBestOfSuppressed` | pkg/linuxptp-daemon/pkg/clock/ha.go:85-96 | The published node state equals the best of the member states, each suppressed by the OS clock. |
| `HaClock.RunKeepsComposed` | pkg/linuxptp-daemon/pkg/clock/ha.go:140-203 | Over any run of member events, selections, OS clock changes and resets, the composite of a clock with members is the best of its members. |
| `HaClock.CompositeChangeIsReported` | pkg/linuxptp-daemon/pkg/clock/ha.go:142-173 | When the composite state changes, the state returned for the member differs from the composite state before. |
| `HaClock.CompositeStaysSet` | pkg/linuxptp-daemon/pkg/clock/ha.go:142-173 | A composite that has left NOTSET does not return to it on an event. |
| `HaClock.MemberMessagesPass` | pkg/linuxptp-daemon/pkg/clock/ha.go:89-96 | Everything a member sends but its sync_state passes the composite, unchanged, in order and as often as it was sent. |
| `HaClock.MemberEventSends` | pkg/linuxptp-daemon/pkg/clock/ha.go:142-173 | All that a member event sends: state and class of the member, each exactly if it changed, then the overall state of the composite if it changed. |
| `HaClock.MemberIsReported` | pkg/linuxptp-daemon/pkg/clock/ha.go:142-173 | The member handles its event; its state, class and interface are returned, its timer is passed on, the other members stay. |
| `HaClock.MembersFollow` | pkg/linuxptp-daemon/pkg/clock/ha.go:175-193 | An OS clock change reconciles the overall state of every member and touches nothing else of it; a reset resets every member and clears the selection. |
| `HaClock.ConsumerKnowsMembers` | pkg/linuxptp-daemon/pkg/clock/ha.go:89-173 | Over every run a consumer knows the state and class of every member and the overall state of the composite from the messages since the last reset. |
| `HaClock.HAClock.BestMemberState` | pkg/linuxptp-daemon/pkg/clock/ha.go:195-203 | The loop over the members in any order gives the best of their states. |
| `HaClock.HAClock.SetActiveByIface` | pkg/linuxptp-daemon/pkg/clock/ha.go:205-219 | A selection picks a member with that interface, or leaves the previous selection if there is none. |
| `HaClock.HAClock.AddEvent` | pkg/linuxptp-daemon/pkg/clock/ha.go:142-173 | Selections, events of unknown members and member events, in place. |
| `HaClock.HAClock.SystemClockUpdate` | pkg/linuxptp-daemon/pkg/clock/ha.go:175-182 | The composite is reconciled and every member, in any order, reconciles itself silently. |
| `HaClock.HAClock.Reset` | pkg/linuxptp-daemon/pkg/clock/ha.go:184-193 | Every member, in any order, and the composite are reset. |
| `TelecomClock.UpdateKeepsGood` | pkg/linuxptp-daemon/pkg/clock/tbc.go:192-340 | An evaluation keeps upstream and downstream time properties equal, and LOCKED or HOLDOVER only with process data. |
| `TelecomClock.EventTransitions` | pkg/linuxptp-daemon/pkg/clock/tbc.go:130-152 | The only state changes an event makes are NOTSET or FREERUN to LOCKED, NOTSET to FREERUN, LOCKED to HOLDOVER or FREERUN, and HOLDOVER to LOCKED or FREERUN. |
| `TelecomClock.EventKeepsClass` | pkg/linuxptp-daemon/pkg/clock/tbc.go:228-325 | For a clock that is not a T-TSC: FREERUN shows the free-run class, HOLDOVER shows 135 exactly while last in specification and 165 otherwise, and within a holdover the class never goes back to 135. |
| `TelecomClock.NeverBackInSpec` | pkg/linuxptp-daemon/pkg/clock/tbc.go:286-306 | The sub-branch that would set class 135 again within a holdover is never taken. |
| `TelecomClock.EventEvaluates` | pkg/linuxptp-daemon/pkg/clock/tbc.go:130-152 | A parent dataset and a report are an evaluation of the clock with exactly what they bring; SyncE events and other answers of pmc leave the clock as it is. |
| `TelecomClock.EventSets` | pkg/linuxptp-daemon/pkg/clock/tbc.go:130-152 | What every event leaves of parameters, upstream datasets and process data, and that it leaves the rest. |
| `TelecomClock.ReportSets` | pkg/linuxptp-daemon/pkg/clock/tbc.go:759-794 | What a report leaves of every parameter: the non-empty ports and clock ID, the non-zero thresholds, the leading interface, and the holdover setting of the leading interface. |
| `TelecomClock.TransitionTable` | pkg/linuxptp-daemon/pkg/clock/tbc.go:192-325 | Exactly which readings move a ready clock from which state to which, in offsets, thresholds and counters alone. |
| `TelecomClock.EvaluationCounts` | pkg/linuxptp-daemon/pkg/clock/tbc.go:543-563 | When the range check is made, what it answers, and the counter it leaves. |
| `TelecomClock.InSpecExactly` | pkg/linuxptp-daemon/pkg/clock/tbc.go:286-306 | A holdover starts within the specification and stays there exactly as long as a limit is set and every reading is within it. |
| `TelecomClock.ReadyShows` | pkg/linuxptp-daemon/pkg/clock/tbc.go:312-331 | A T-TSC shows the slave-only class and asks for no announcement; outside LOCKED the accuracy is unknown. |
| `TelecomClock.WaitsForSetup` | pkg/linuxptp-daemon/pkg/clock/tbc.go:200-226 | Without a leading interface a clock waits; without process data it is in FREERUN with the class of that. |
| `TelecomClock.ResetForgets` | pkg/linuxptp-daemon/pkg/clock/tbc.go:342-356 | After a reset clocks differ only in their configured leading interface and token. |
| `TelecomClock.LocalAnnouncementFollowsState` | pkg/linuxptp-daemon/pkg/clock/tbc.go:377-443 | What is announced downstream without a fetch, field by field, belongs to the state: free-run, or holdover within or out of the specification. |
| `TelecomClock.FetchedIsAnnounced` | pkg/linuxptp-daemon/pkg/clock/tbc.go:466-514 | A fetch result is announced if and only if its token is current and the clock is LOCKED; every field announced, and all four datasets kept, are then those of the result. |
| `TelecomClock.LockedFollowsUpstream` | pkg/linuxptp-daemon/pkg/clock/tbc.go:250-273 | LOCKED, a clock that is no T-TSC shows class and accuracy of its upstream grandmaster unless that is free-running. |
| `TelecomClock.DownstreamHearsExactly` | pkg/linuxptp-daemon/pkg/clock/tbc.go:154-181 | Exactly when an evaluation starts a fetch, with which token, and exactly when local data are announced instead. |
| `TelecomClock.EventSends` | pkg/linuxptp-daemon/pkg/clock/tbc.go:130-181 | All that an event sends: state on the leading interface, class and overall state, each exactly if it changed, or what a SyncE event carries. |
| `TelecomClock.EvaluateReconciles` | pkg/linuxptp-daemon/pkg/clock/tbc.go:154-181 | An evaluation publishes the overall state exactly when it changes. |
| `TelecomClock.EventReconciles` | pkg/linuxptp-daemon/pkg/clock/tbc.go:130-152 | Every event leaves the overall state the worst of the clock and the OS clock and publishes it exactly when it changes. |
| `TelecomClock.AnnounceSeq.Next` | pkg/linuxptp-daemon/pkg/clock/tbc.go:60-69 | Tokens are handed out increasing. |
| `TelecomClock.TBC.AddEvent` | pkg/linuxptp-daemon/pkg/clock/tbc.go:130-152 | The clock in place takes every event as the step functions say. |
| `TelecomClock.TBC.EvaluateState` | pkg/linuxptp-daemon/pkg/clock/tbc.go:154-181 | Evaluation, messages and downstream request in place. |
| `TelecomClock.TBC.UpdateStateMachine` | pkg/linuxptp-daemon/pkg/clock/tbc.go:192-340 | The state machine in place, with the order in which its conditions are evaluated. |
| `TelecomClock.TBC.FromLockedState` | pkg/linuxptp-daemon/pkg/clock/tbc.go:236-273 | The LOCKED case: fault, lost source, or following the upstream datasets. |
| `TelecomClock.TBC.FromHoldoverState` | pkg/linuxptp-daemon/pkg/clock/tbc.go:274-307 | The HOLDOVER case; the in-sync check is made, and counted, before the lost source is asked for. |
| `TelecomClock.TBC.InSyncCondition` | pkg/linuxptp-daemon/pkg/clock/tbc.go:543-563 | The debounce counter: one more for an offset in range, zero for one out of range, untouched while the threshold is not set. |
| `TelecomClock.TBC.UpdateDownstreamData` | pkg/linuxptp-daemon/pkg/clock/tbc.go:364-375 | A LOCKED clock takes a new token and starts a fetch; any other announces its own data. |
| `TelecomClock.TBC.HandleDownstreamAnnounce` | pkg/linuxptp-daemon/pkg/clock/tbc.go:466-514 | A fetch result is applied only with the current token and while LOCKED. |
| `TelecomClock.TBC.UpdateLeadingClockData` | pkg/linuxptp-daemon/pkg/clock/tbc.go:759-794 | Which parts of a hardware report set which parameters. |
| `TelecomClock.TBC.Reset` | pkg/linuxptp-daemon/pkg/clock/tbc.go:342-356 | Reset takes a new token and forgets data and parameters; the shared OS clock goes to FREERUN. |
| `DownstreamAnnounce.AppliedAnswersLatestRequest` | pkg/linuxptp-daemon/pkg/clock/tbc.go:60-69 | Over any number of clocks, resets, replacements and completions in any order: a result is applied only if it answers the most recent request of that very clock; a clock that never locked as a T-TSC has been LOCKED all the time since. |
| `DownstreamAnnounce.AppliedTokensIncrease` | pkg/linuxptp-daemon/pkg/clock/tbc.go:466-480 | The tokens a clock applies strictly increase, so each request is applied at most once. |
| `DownstreamAnnounce.RequestsAreBounded` | pkg/linuxptp-daemon/pkg/clock/tbc.go:364-375 | A clock never requests more fetches than it entered LOCKED and saw its upstream parent dataset change. |
| `DownstreamAnnounce.CounterIsStreak` | pkg/linuxptp-daemon/pkg/clock/tbc.go:543-563 | In every reachable state the debounce counter is the length of the last streak of in-range evaluations since Reset; time properties agree; LOCKED and HOLDOVER have process data. |
| `DownstreamAnnounce.EnteredAfterStreak` | pkg/linuxptp-daemon/pkg/clock/tbc.go:229-235 | LOCKED is entered only at the end of a streak of at least the configured number of in-range evaluations. |
| `DownstreamAnnounce.AppliedDataIsNotRequestedAgain` | pkg/linuxptp-daemon/pkg/clock/tbc.go:483-514 | Applying a result does not by itself lead to another request. |
| `DownstreamAnnounce.AnnouncedWasFetched` | pkg/linuxptp-daemon/pkg/clock/tbc.go:446-514 | Over every run, what a clock announces with a result is, field by field, what the fetch of that token had brought. |
| `DownstreamAnnounce.ClassMatchesState` | pkg/linuxptp-daemon/pkg/clock/tbc.go:203-325 | Over whole runs, a clock that is never a T-TSC shows the class of its state. |
| `DownstreamAnnounce.HoldoverClassNeverImproves` | pkg/linuxptp-daemon/pkg/clock/tbc.go:286-306 | Over whole runs, as long as one holdover lasts a class out of specification never becomes 135 again. |
| `DownstreamAnnounce.RelockNeedsOneEvaluation` | pkg/linuxptp-daemon/pkg/clock/tbc.go:543-563 | The streak is not ended by locking: a clock that fell from LOCKED to FREERUN locks again after one in-range evaluation. |
| `DownstreamAnnounce.RelockTakesTokenExactly` | pkg/linuxptp-daemon/pkg/clock/tbc.go:323-331 | A clock that locks again takes a new token if and only if it is not a T-TSC. |
| `DownstreamAnnounce.TtscAppliesResultOfEarlierEpisode` | pkg/linuxptp-daemon/pkg/clock/tbc.go:323-331 | A clock that turns T-TSC while out of lock applies, once locked again, the result of a fetch started before. |
| `DownstreamAnnounce.ResultCrossesEpisodes` | pkg/linuxptp-daemon/pkg/clock/tbc.go:323-331 | A run from the start in which that fetch is requested, completed, delivered and applied, the clock having been out of lock in between. |
| `ClockManager.EventMoves` | pkg/linuxptp-daemon/pkg/clockmgr/clockmgr.go:287-291 | An event leaves a clock of any kind agreeing with the OS clock, and publishes the overall state exactly when it changes. |
| `ClockManager.RegisteredClocksAgree` | pkg/linuxptp-daemon/pkg/clockmgr/clockmgr.go:205-319 | On every run without a reset, after every step every registered clock has as overall state the worst of its state and the OS clock. |
| `ClockManager.PublishedNeverRepeats` | pkg/linuxptp-daemon/pkg/clockmgr/clockmgr.go:205-319 | On such a run no clock publishes one overall state twice in a row; two messages in a row carry one name if and only if the states are NOTSET and FREERUN. |
| `ClockManager.NameRepeatsExactly` | pkg/linuxptp-daemon/pkg/clockmgr/clockmgr.go:203-228 | A step publishes the name that was published last if and only if it is an OS clock sample that takes the overall state of a registered clock between NOTSET and FREERUN. |
| `ClockManager.FreerunIsPublishedTwice` | pkg/linuxptp-daemon/pkg/clock/clock.go:46-56 | A run of three steps in which a clock publishes FREERUN twice in a row. |
| `ClockManager.UpdateAndResetAre` | pkg/linuxptp-daemon/pkg/clockmgr/clockmgr.go:203-228 | For every kind of clock: an OS clock change touches nothing but overall states, a reset leaves only the configuration and the generations of timers. |
| `ClockManager.IncomingReachesItsClock` | pkg/linuxptp-daemon/pkg/clockmgr/clockmgr.go:264-291 | An event is handled by the clock registered under its name, which is the event of its kind of clock, and by no other; all it sends is published in order; it is skipped for no clock and for a telecom clock while profiles are applied. |
| `ClockManager.IncomingSignals` | pkg/linuxptp-daemon/pkg/clockmgr/clockmgr.go:287-291 | An incoming event adds exactly one signal if and only if the state of its clock was set and changes, for boundary and telecom clocks; for a composite, if the state of the member differs from the composite state before. |
| `ClockManager.ChangeIsSignalled` | pkg/linuxptp-daemon/pkg/clockmgr/clockmgr.go:205-336 | Over every step of the loop and every kind of clock: a state that was set changes without a signal if and only if the step is a reset of that clock in a state other than the one it is reset to. |
| `ClockManager.ConsumerKnowsEveryClock` | pkg/linuxptp-daemon/pkg/clockmgr/clockmgr.go:205-319 | Over every run without a reset a consumer knows state, class and overall state of every clock, and of every member of a composite, from what that clock published. |
| `ClockManager.OsStateIsKnownExactly` | pkg/linuxptp-daemon/pkg/clockmgr/clockmgr.go:203-228 | A step keeps the last OS clock state published the state of the OS clock, unless and only unless it is a reset of a registered clock or the removal of all while the OS clock is not in FREERUN. |
| `ClockManager.EventChangeIsSignalled` | pkg/linuxptp-daemon/pkg/clockmgr/clockmgr.go:287-291 | An event that changes the state of a clock of any kind that was set is signalled, although for a composite the loop compares with the state of the member. |
| `ClockManager.ResetClockAgreesExactly` | pkg/linuxptp-daemon/pkg/clockmgr/clockmgr.go:322-336 | A clock agrees with the OS clock after its reset if and only if it is not a T-BC. |
| `ClockManager.OtherClockAgreesExactly` | pkg/linuxptp-daemon/pkg/clockmgr/clockmgr.go:322-336 | A reset of one clock resets the shared OS clock silently: exactly which other clocks still agree. |
| `ClockManager.UpdateIsIdempotent` | pkg/linuxptp-daemon/pkg/clockmgr/clockmgr.go:225-227 | A clock registered under several names is updated once per name; the second update changes and publishes nothing. |
| `ClockManager.ClockManager.HandleOSClockEvent` | pkg/linuxptp-daemon/pkg/clockmgr/clockmgr.go:203-228 | A changed OS clock is signalled and published once, and every registered clock publishes at most its one change. |
| `ClockManager.ClockManager.FanOut` | pkg/linuxptp-daemon/pkg/clockmgr/clockmgr.go:225-227 | The walk over the names in any order updates exactly the registered clocks. |
| `ClockManager.ClockManager.ProcessEvent` | pkg/linuxptp-daemon/pkg/clockmgr/clockmgr.go:264-291 | One turn of the loop for an event of a clock. |
| `ClockManager.ClockManager.AddClock` | pkg/linuxptp-daemon/pkg/clockmgr/clockmgr.go:111-130 | A clock is registered under all its names and replaces what was there. |
| `ClockManager.ClockManager.Reset` | pkg/linuxptp-daemon/pkg/clockmgr/clockmgr.go:321-336 | A reset reaches the clock of the name and the shared OS clock, and no other. |
| `ClockManager.ClockManager.RemoveAllClocks` | pkg/linuxptp-daemon/pkg/clockmgr/clockmgr.go:163-175 | All names are forgotten; the clocks themselves, and their timers, stay as they are. |
| `PubSub.FindId` | pkg/linuxptp-daemon/pkg/cep/pubsub.go:94-99 | The first active slot of the id. |
| `PubSub.SwapRemoveIsExact` | pkg/linuxptp-daemon/pkg/cep/pubsub.go:108-115 | Swap-removal takes exactly the slot out of a bucket and makes no duplicates; the last entry takes its place, all others keep theirs. |
| `PubSub.SubscribeKeepsShape` | pkg/linuxptp-daemon/pkg/cep/pubsub.go:59-86 | A subscription takes a free slot or a new one; the free list stays exactly the inactive slots and every bucket exactly the active slots of its resource. |
| `PubSub.UnsubscribeKeepsShape` | pkg/linuxptp-daemon/pkg/cep/pubsub.go:88-126 | Removing a subscription keeps the same, and leaves every other slot alone. |
| `PubSub.LastFreedIsReused` | pkg/linuxptp-daemon/pkg/cep/pubsub.go:59-126 | A subscription after a removal takes the slot just freed and leaves the rest of the free list; without a free slot it takes a new one at the end. |
| `PubSub.SubscribeRefines` | pkg/linuxptp-daemon/pkg/cep/pubsub.go:59-86 | To the map from id to resource and endpoint, Subscribe adds one entry. |
| `PubSub.UnsubscribeRefines` | pkg/linuxptp-daemon/pkg/cep/pubsub.go:88-126 | Unsubscribe removes the entry of the id, and nothing if there is none. |
| `PubSub.GetIsLookup` | pkg/linuxptp-daemon/pkg/cep/pubsub.go:180-190 | Get finds the subscription of an id exactly if the map has it. |
| `PubSub.TargetsAreExact` | pkg/linuxptp-daemon/pkg/cep/pubsub.go:145-157 | An event is delivered to exactly the subscriptions of its source whose endpoint is not empty and has a writer, and to that writer. |
| `PubSub.TargetsInOrder` | pkg/linuxptp-daemon/pkg/cep/pubsub.go:145-157 | They are served in the order of their bucket. |
| `PubSub.NewIsServedLast` | pkg/linuxptp-daemon/pkg/cep/pubsub.go:59-86 | A new subscription is served after those of its resource that were there; nothing changes for any other resource. |
| `PubSub.TargetsAreDistinct` | pkg/linuxptp-daemon/pkg/cep/pubsub.go:145-157 | No subscription is served twice. |
| `PubSub.LoadedIsShaped` | pkg/linuxptp-daemon/pkg/cep/pubsub.go:225-253 | Loading any file, repeated ids included, gives a well-shaped store; ids are unique exactly if they are in the file. |
| `PubSub.SavedIsTheMap` | pkg/linuxptp-daemon/pkg/cep/pubsub.go:205-212 | What is saved says exactly the map. |
| `PubSub.SavedInOrder` | pkg/linuxptp-daemon/pkg/cep/pubsub.go:205-212 | What is saved are the id, resource and endpoint of the listed slots, in the same order. |
| `PubSub.ListedInOrder` | pkg/linuxptp-daemon/pkg/cep/pubsub.go:192-203 | The list has exactly the active slots, in slot order. |
| `PubSub.RestartRestores` | pkg/linuxptp-daemon/pkg/cep/pubsub.go:205-253 | Loading what was saved restores the same map and the same list in the same order. |
| `PubSub.StepRefines` | pkg/linuxptp-daemon/pkg/cep/pubsub.go:59-138 | Every call does to slots, free list, index and file what the simple form does to a map and its copy. |
| `PubSub.RunRefines` | pkg/linuxptp-daemon/pkg/cep/pubsub.go:33-41 | Over any run the store refines the map, and the number of slots is the most active subscriptions at once since the last clear or load. |
| `PubSub.PubSub.Subscribe` | pkg/linuxptp-daemon/pkg/cep/pubsub.go:59-86 | Slots, free list, index and file in place: they end as the value-level Subscribe says, well-shaped, and the file is rewritten exactly if saving succeeds. |
| `PubSub.PubSub.Unsubscribe` | pkg/linuxptp-daemon/pkg/cep/pubsub.go:88-126 | Two loops and a swap-removal in place end as the value-level Unsubscribe says; the result is whether the id was there, and only then is the file written. |
| `PubSub.PubSub.UnsubscribeAll` | pkg/linuxptp-daemon/pkg/cep/pubsub.go:128-138 | Slots, free list and index are emptied, and the file too if saving succeeds. |
| `PubSub.PubSub.LoadFromDisk` | pkg/linuxptp-daemon/pkg/cep/pubsub.go:225-253 | A missing file changes nothing, an unreadable one fails and changes nothing, any other replaces the store. |
| `PubSub.PubSub.GetTargets` | pkg/linuxptp-daemon/pkg/cep/pubsub.go:145-157 | The loop over the bucket never leaves the slots. |
| `PubSub.PubSub.List` | pkg/linuxptp-daemon/pkg/cep/pubsub.go:192-203 | The active slots in slot order. |
| `PubSub.PubSub.Records` | pkg/linuxptp-daemon/pkg/cep/pubsub.go:206-212 | The records of the active slots in slot order. |
| `EventCache.BuiltKeysAreUnique` | pkg/linuxptp-daemon/pkg/cep/event_cache.go:125-142 | No message carries two values for one resource and data type. |
| `EventCache.SetDataValueIsUpdate` | pkg/linuxptp-daemon/pkg/cep/event_cache.go:58-70 | Setting a value is a map update on (resource, data type), keeps keys unique, and changes the list exactly if it says something else. |
| `EventCache.SetAllIsUnion` | pkg/linuxptp-daemon/pkg/cep/event_cache.go:65-69 | Setting the values of a message is the union of what the entry said and what the message says. |
| `EventCache.UnchangedMeansSaid` | pkg/linuxptp-daemon/pkg/cep/event_cache.go:65-74 | The changed flag of the loop is right: no later value hides an earlier change. |
| `EventCache.PublishesExactlyNews` | pkg/linuxptp-daemon/pkg/cep/event_cache.go:29-81 | A message with an interface publishes exactly if it is the first of its type or says something new. |
| `EventCache.RepeatIsSilent` | pkg/linuxptp-daemon/pkg/cep/event_cache.go:29-81 | Repeating a message at once publishes nothing and changes nothing. |
| `EventCache.SourcesAreDistinct` | pkg/linuxptp-daemon/pkg/cep/event_cache.go:94-104 | On every node distinct types have distinct sources. |
| `EventCache.CleaningSteps` | pkg/linuxptp-daemon/pkg/cep/event_cache.go:125-142 | Path elements are appended, ".." takes the last one away, "" and "." nothing. |
| `EventCache.AddressIs` | pkg/linuxptp-daemon/pkg/cep/event_cache.go:125-142 | For every type the resource address of its values, by node and interface. |
| `EventCache.SourceIs` | pkg/linuxptp-daemon/pkg/cep/cep.go:26-60 | Exactly which types have a source, and which one. |
| `EventCache.ShownExactly` | pkg/linuxptp-daemon/pkg/cep/cep.go:85-125 | An entry says all values of a payload if and only if it has each of its notifications and metrics, by payload. |
| `EventCache.MessageIsShown` | pkg/linuxptp-daemon/pkg/cep/event_cache.go:29-81 | After a message the cache takes, its entry shows every value of the message under its address, with the source of the type; other types stay. |
| `EventCache.PublishedExactly` | pkg/linuxptp-daemon/pkg/cep/event_cache.go:29-81 | A message of an interface is published if and only if its type has a source and is new or does not show the message yet; the event is the new entry with the identifier drawn and the time of the message. |
| `EventCache.LastMessageIsShown` | pkg/linuxptp-daemon/pkg/cep/event_cache.go:29-81 | The same after any stream. |
| `EventCache.CacheAgreesWithFold` | pkg/linuxptp-daemon/pkg/cep/event_cache.go:29-81 | After any stream every entry has unique keys and says what the fold says: messages with an interface add, messages without one replace, a clear forgets. |
| `EventCache.CacheShowsLastSent` | pkg/linuxptp-daemon/pkg/cep/event_cache.go:83-112 | After any stream an entry is the last event published for its type since the last clear. |
| `EventCache.EventCache.Update` | pkg/linuxptp-daemon/pkg/cep/event_cache.go:29-81 | The entries end, and the event is returned or not, as the value-level update says; entries keep unique keys. |
| `EventCache.EventCache.GetBySource` | pkg/linuxptp-daemon/pkg/cep/event_cache.go:94-104 | The lookup in arbitrary map order finds the one entry of the source. |
| `EventCache.EventCache.SetValue` | pkg/linuxptp-daemon/pkg/cep/cep.go:127-139 | The loop that replaces or appends one value, and whether that changed the list. |
| `EventCache.EventCache.Handle` | pkg/linuxptp-daemon/pkg/cep/cep.go:155-182 | The dispatch of one line: version, clear, status request, update. |
| `EventCache.EventCache.Listen` | pkg/linuxptp-daemon/pkg/cep/cep.go:153-187 | A stream of lines leaves the entries and the log of events and clears that the fold over lines gives. |
| `Ptp4lConf.FindSection` | pkg/linuxptp-daemon/pkg/daemon/config.go:119-124 | The last section of a name, or -1. |
| `Ptp4lConf.OptionIsSet` | pkg/linuxptp-daemon/pkg/daemon/config.go:116-152 | What setting an option changes: the section is there, at the end if it is new; each option of the key has the value if it overwrites, else one more is appended; every other section stays. |
| `Ptp4lConf.LineIs` | pkg/linuxptp-daemon/pkg/daemon/config.go:259-280 | Exactly what a line is: ignored, an unclosed header, a header up to its first bracket, or a key up to the first blank and a trimmed value. |
| `Ptp4lConf.LinesFailExactly` | pkg/linuxptp-daemon/pkg/daemon/config.go:264-268 | A text is refused if and only if a header is not closed. |
| `Ptp4lConf.FirstUnclosedStops` | pkg/linuxptp-daemon/pkg/daemon/config.go:264-268 | What the lines before the first such line say is kept. |
| `Ptp4lConf.SettingsAreWhereTheyBelong` | pkg/linuxptp-daemon/pkg/daemon/config.go:258-288 | For every text that parses: the options of a section are the settings below the headers of its name, wherever and as often as they are written, in order. |
| `Ptp4lConf.TypeIsInferred` | pkg/linuxptp-daemon/pkg/daemon/config.go:241-300 | The inferred clock type, by the options that mark a receiver of time and the number of lines that are interface headers. |
| `Ptp4lConf.HeadersAreNames` | pkg/linuxptp-daemon/pkg/daemon/config.go:264-273 | A parsed header is a bracketed name without inner closing bracket. |
| `Ptp4lConf.SettingsAreEntries` | pkg/linuxptp-daemon/pkg/daemon/config.go:274-279 | A parsed setting has a key without spaces and a value that is trimmed and not empty. |
| `Ptp4lConf.ParseGivesNormal` | pkg/linuxptp-daemon/pkg/daemon/config.go:237-302 | Every text that parses gives unique section names, with the unnamed section only ever first. |
| `Ptp4lConf.RenderThenParse` | pkg/linuxptp-daemon/pkg/daemon/config.go:455-499 | A normal list of sections is read back from its rendering exactly, duplicate keys, order and values included. |
| `Ptp4lConf.ParseRenderParse` | pkg/linuxptp-daemon/pkg/daemon/config.go:237-302 | For every text that parses, rendering and parsing again gives the same sections. |
| `Ptp4lConf.RoundTripsExactly` | pkg/linuxptp-daemon/pkg/daemon/config.go:456-457 | The profile name is written unchecked: reading back is exact for all sections if and only if every line of the name after the first is one the parser skips. |
| `Ptp4lConf.ProfileNameCanAddSection` | pkg/linuxptp-daemon/pkg/daemon/config.go:456-457 | A profile name with a header after a line break adds a section. |
| `Ptp4lConf.ParseGathers` | pkg/linuxptp-daemon/pkg/daemon/config.go:237-302 | The slave flag is whether some stored option marks a receiver of time; headers are counted as often as written. |
| `Ptp4lConf.ClockTypeSurvivesExactly` | pkg/linuxptp-daemon/pkg/daemon/config.go:270-300 | The inferred clock type survives the round trip if and only if the text does not repeat the header of its only interface while marking a receiver of time. |
| `Ptp4lConf.RepeatedHeaderChangesType` | pkg/linuxptp-daemon/pkg/daemon/config.go:270-300 | A text with a header, a slave mark and the header again is read as a boundary clock and, once written, as an ordinary clock. |
| `Ptp4lConf.Ptp4lConf.GetOption` | pkg/linuxptp-daemon/pkg/daemon/config.go:102-114 | The value of the first such option, if there is one. |
| `Ptp4lConf.Ptp4lConf.SetOption` | pkg/linuxptp-daemon/pkg/daemon/config.go:116-152 | The section is found or added, and the option overwritten wherever its key occurs or appended. |
| `Ptp4lConf.Ptp4lConf.Populate` | pkg/linuxptp-daemon/pkg/daemon/config.go:237-302 | The sections and clock type of the parse; on an error what was read stays and the clock type is left alone. |
| `Ptp4lConf.Ptp4lConf.Render` | pkg/linuxptp-daemon/pkg/daemon/config.go:455-499 | The text, section by section. |
| `PhcTime.CorrectedTime` | pkg/linuxptp-daemon/addons/phcfirststep/phc_first_step.go:368-373 | The difference of two int64 values, and a failure exactly if it is not an int64; no step overflows. |
| `PhcTime.Combined` | pkg/linuxptp-daemon/addons/phcfirststep/phc_first_step.go:386-406 | Seconds and nanoseconds together, exact to both ends of int64 and with no step overflowing but the bound that negative nanoseconds make wrap around; those are always refused. |
| `PhcTime.PhcSecondsToNs` | pkg/linuxptp-daemon/addons/phcfirststep/phc_first_step.go:375-407 | Any text is read as floor seconds and the first nine characters of its fraction, and rejected exactly if one of them is no number, the second is negative, or the time is not an int64. |
| `PhcTime.ParseIntReads` | pkg/linuxptp-daemon/addons/phcfirststep/phc_first_step.go:375-407 | Digits with or without a sign are the number they are, as long as it is an int64. |
| `PhcTime.ParseIntAccepts` | pkg/linuxptp-daemon/addons/phcfirststep/phc_first_step.go:375-407 | No other text is a number. |
| `PhcTime.DecimalIsRead` | pkg/linuxptp-daemon/addons/phcfirststep/phc_first_step.go:375-407 | Nine digits after the point are nanoseconds on top of the signed seconds; fewer count as if zeros followed, more are ignored; without a point there are none. |
| `PhcTime.FormatNsIsFloor` | pkg/linuxptp-daemon/addons/phcfirststep/phc_first_step.go:409-417 | The text is the seconds rounded down and nine digits. |
| `PhcTime.RoundTrip` | pkg/linuxptp-daemon/addons/phcfirststep/phc_first_step.go:375-417 | Every int64 is read back as it was written, the least one included. |
| `PhcTime.MinusZeroSeconds` | pkg/linuxptp-daemon/addons/phcfirststep/phc_first_step.go:375-407 | A minus before zero seconds is lost, whatever follows. |
| `PhcTime.UpdatePhc` | pkg/linuxptp-daemon/addons/phcfirststep/phc_first_step.go:196-222 | A successful update sets the PHC once or twice, once exactly if the second offset is within a second; each text written reads as the PHC time less the offset. A failed one has set it at most once, exactly if the first adjustment succeeded. |
| `NtpFailover.TraceIsPattern` | pkg/linuxptp-daemon/addons/generic/ntpfailover.go:110-151 | Whatever lines and configurations come between the turns of the line with the lock, the events are a prefix of R(FRR)*. |
| `NtpFailover.UndisturbedIsHandled` | pkg/linuxptp-daemon/addons/generic/ntpfailover.go:110-151 | A line that got the lock and is not disturbed leaves the state and events of the closed form. |
| `NtpFailover.NeverRestsOutOfSpec` | pkg/linuxptp-daemon/addons/generic/ntpfailover.go:105-151 | A machine never rests out of specification, unless the expiry was moved past the line at work just after that line had left Active. |
| `NtpFailover.PutOffRestsOutOfSpec` | pkg/linuxptp-daemon/addons/generic/ntpfailover.go:105-151 | When it was, the next turn leaves the machine at rest out of specification, with nothing emitted. |
| `NtpFailover.CanRestOutOfSpec` | pkg/linuxptp-daemon/addons/generic/ntpfailover.go:105-138 | A run in which that happens. |
| `NtpFailover.ExpiryAfterHealthy` | pkg/linuxptp-daemon/addons/generic/ntpfailover.go:105-107 | After a healthy line, with the lock or without it, the expiry stays at least the tolerance after it until the next configuration. |
| `NtpFailover.FailoverMeansStale` | pkg/linuxptp-daemon/addons/generic/ntpfailover.go:105-138 | A failover is emitted only for a line strictly later than the tolerance after every healthy line since the last configuration, those included that came while it was at work. |
| `NtpFailover.ExpiryIsOfLastWrite` | pkg/linuxptp-daemon/addons/generic/ntpfailover.go:74-107 | The expiry is that of the last write: the startup delay after a configuration, or the tolerance after a healthy line. |
| `NtpFailover.NoFailoverInStartupDelay` | pkg/linuxptp-daemon/addons/generic/ntpfailover.go:74-138 | No failover within the startup delay of a configuration without a healthy line since. |
| `NtpFailover.RestsExactly` | pkg/linuxptp-daemon/addons/generic/ntpfailover.go:110-151 | Where an undisturbed line leaves the machine from every state, and how many events it emits. |
| `NtpFailover.HealthyLineRecovers` | pkg/linuxptp-daemon/addons/generic/ntpfailover.go:105-151 | With a positive tolerance a healthy line leads to Active if and only if the machine does not rest out of specification, and never fails over. |
| `NtpFailover.NegativeToleranceFailsOver` | pkg/linuxptp-daemon/addons/generic/ntpfailover.go:81-85 | A healthy line fails over if and only if the tolerance, which is not checked, is negative. |
| `NtpFailover.NtpFailoverPlugin.ProcessLog` | pkg/linuxptp-daemon/addons/generic/ntpfailover.go:96-155 | One log line moves the expiry, and state and trace as the closed form says unless another line holds the lock; events are sent only when there is a channel. |
| `NtpFailover.NtpFailoverPlugin.Drive` | pkg/linuxptp-daemon/addons/generic/ntpfailover.go:114-151 | The inner loop ends, and comes to the state and events of the closed form. |
| `PinControl.CommandsAreSeparate` | pkg/linuxptp-daemon/addons/intel/clock-chain.go:268-337 | At most one command of directions alone, exactly if a direction changes, then one command covering every parent once in order without directions. |
| `PinControl.SecondCallSendsNoDirection` | pkg/linuxptp-daemon/addons/intel/clock-chain.go:268-299 | With the same control again no direction is sent and the inventory stays as it is. |
| `PinControl.CommandsTakeEffect` | pkg/linuxptp-daemon/addons/intel/clock-chain.go:301-337 | A pin that rejects mixed or unsupported changes accepts all commands and ends with its first port as the EEC fields of the control say, its second as the PPS fields say and the others with priority and state 0, as far as it is capable; the inventory knows it again. |
| `PinControl.BatchTakesEffect` | pkg/linuxptp-daemon/addons/intel/clock-chain.go:230-266 | Whatever the controls, repeated labels included, the whole batch is accepted; every pin ends as its controls, one after the other, ask, pins without one as they were, and the inventory knows all pins. |
| `PinControl.LeadingPinGetsItsControls` | pkg/linuxptp-daemon/addons/intel/clock-chain.go:230-242 | A control goes to a pin, after those before it, if and only if the pin is the first on the leading card with its label. |
| `PinControl.PinGetsItsControls` | pkg/linuxptp-daemon/addons/intel/clock-chain.go:244-266 | On all cards: if and only if the pin has its label, or is an SMA2 when no pin has the input name of it. |
| `PinControl.MissingIsReported` | pkg/linuxptp-daemon/addons/intel/clock-chain.go:250-257 | A label is reported if and only if it is that of no pin. |
| `PinControl.Pin.BuildDirectionEntries` | pkg/linuxptp-daemon/addons/intel/clock-chain.go:268-299 | The direction changes, written into the shared array in place. |
| `PinControl.Pin.SetPinControlData` | pkg/linuxptp-daemon/addons/intel/clock-chain.go:301-337 | The commands, and the pin as the inventory then has it. |
| `PinControl.ClockChain.SetPinsControl` | pkg/linuxptp-daemon/addons/intel/clock-chain.go:230-242 | One pin per label on the leading card; labels not found are skipped. |
| `PinControl.ClockChain.SetPinsControlForAllNICs` | pkg/linuxptp-daemon/addons/intel/clock-chain.go:244-266 | All pins of a label on all cards, with the other name of the second SMA connector; the labels not found are reported under the name tried last. |
| `DaemonSetMerge.PartitionKeepsItems` | pkg/apply/merge.go:137-176 | Filtering and extracting keep every item once. |
| `DaemonSetMerge.PartitionOfAppend` | pkg/apply/merge.go:137-176 | Both keep the order. |
| `DaemonSetMerge.SecurityExactly` | pkg/apply/merge.go:127-135 | Exactly which names are security items, and which keys security annotations. |
| `DaemonSetMerge.MergeFailsExactly` | pkg/apply/merge.go:92-121 | A merge fails if and only if a list or the annotations of the update are malformed, and what it leaves then. |
| `DaemonSetMerge.MergedSplits` | pkg/apply/merge.go:401-402 | A merged list has the non-security items of the update and the security items of whom they come from. |
| `DaemonSetMerge.MergedAnnotationsSplit` | pkg/apply/merge.go:435-442 | The same for the annotations. |
| `DaemonSetMerge.MergeTwice` | pkg/apply/merge.go:92-121 | Merging again changes nothing, with the same current object or with the result. |
| `DaemonSetMerge.WritersDoNotInterfere` | pkg/apply/merge.go:88-121 | Over any interleaving of both controllers, creations and deletions: everything but the security items is that of the last template, the security volumes and mounts are those of the last secrets, the security annotations those at creation. |
| `DaemonSetMerge.Object.MergeDaemonSetForUpdate` | pkg/apply/merge.go:88-121 | The merge in place, with how far it gets before an error. |
| `DaemonSetMerge.SecurityNamesMatch` | controllers/ptpconfig_controller.go:556-587 | Every security volume is mounted under its name, over any interleaving. |
| `DaemonSetMerge.SecretsAreMounted` | controllers/ptpconfig_controller.go:496-587 | After the secrets are written, at any time, there are exactly one volume and one mount for each, by name, secret and path, in order; nothing else has changed. |
| `DaemonSetMerge.Object.RemoveSecurityVolumes` | controllers/ptpconfig_controller.go:523-554 | Exactly the security volumes and mounts are removed. |
| `DaemonSetMerge.Object.InjectPtpSecurityVolume` | controllers/ptpconfig_controller.go:556-587 | One volume and its mount are appended. |
| `DaemonSetMerge.Object.SyncSecrets` | controllers/ptpconfig_controller.go:496-503 | Old secrets out, existing ones in, in the order of the map. |
| `Recommend.GetRecommendProfilesNames` | controllers/recommend.go:189-246 | For every way the sort may order equal priorities: exactly the profiles of the eligible recommendations of least priority number; a panic exactly if an eligible recommendation has no priority. |
| `Recommend.SelectionIgnoresOrder` | controllers/recommend.go:196-201 | Reordering resources or recommendations does not change the selection. |
| `Recommend.MatchNode` | controllers/recommend.go:248-272 | A node matches if and only if a rule has its name or the key of one of its labels. |
| `Recommend.QualifyIsInjective` | controllers/recommend.go:16-19 | Qualified names determine resource and profile, for resource names free of the separator. |
| `Recommend.QualifiedIsUndone` | pkg/linuxptp-daemon/pkg/daemon/ptpconfig_status.go:21-28 | The daemon gets resource and profile back from a qualified name. |
| `Recommend.SeparatorInConfigNameIsAmbiguous` | controllers/recommend.go:14-19 | With the separator in a resource name two profiles can have one qualified name. |
| `Recommend.ResolvesExactly` | controllers/recommend.go:36-66 | A reference resolves to the qualified name of an existing profile if and only if it refers to one. |
| `Recommend.ResolvesTo` | controllers/recommend.go:36-83 | An already qualified name of a profile stays, the name of a profile becomes that of the first resource with it, anything else stays. |
| `Recommend.ListIsResolved` | controllers/recommend.go:85-97 | A list is resolved part by part, each trimmed and in its place. |
| `Recommend.OnlyReferencesChange` | controllers/recommend.go:85-97 | Two settings, unless empty, are resolved; every other one, and which there are, stays. |
| `Recommend.ResolveTwice` | controllers/recommend.go:36-54 | Resolving is idempotent. |
| `Recommend.QualifyTwice` | controllers/recommend.go:85-97 | Qualifying the references of a profile, lists included, is idempotent. |
| `Recommend.QualifyCrossProfileReferences` | controllers/recommend.go:85-97 | The two settings that refer to profiles are resolved, a list part by part; every other setting stays. |
| `Recommend.ChosenAreUnique` | controllers/recommend.go:145-176 | The names a node gets are unique across resources and lead back to them. |
| `Recommend.ChosenExactly` | controllers/recommend.go:145-180 | A node gets exactly the copies of the profiles whose names are recommended, of every resource: qualified name, resolved references, everything else unchanged. |
| `Recommend.StableSortIsUnique` | controllers/recommend.go:181-184 | There is one stable sort of the profiles by name, the one of the model. |
| `Recommend.NodeNamesAscend` | controllers/recommend.go:145-186 | The names of what a node gets are strictly ascending, for profile names that are unique within a resource. |
| `Recommend.GetRecommendProfiles` | controllers/recommend.go:145-186 | All selected profiles of all resources sorted by name, or a failure exactly if a selected name is in none. |
| `AliasStore.AliasesAreUnique` | pkg/linuxptp-daemon/pkg/alias/manager.go:33-102 | At most one map serves every group. |
| `AliasStore.GroupIsUniform` | pkg/linuxptp-daemon/pkg/alias/manager.go:51-77 | A group is on one alias, or all of it on interface names. |
| `AliasStore.SharedExactly` | pkg/linuxptp-daemon/pkg/alias/manager.go:79-97 | Two interfaces have one alias exactly if they are on the alias of their common PHC, are one interface, or the alias of one is the name of the other. |
| `AliasStore.FinalServesExactly` | pkg/linuxptp-daemon/pkg/alias/manager.go:33-102 | For every order of the walk, the two passes serve every group if and only if no interface is torn between two groups. |
| `AliasStore.OrderMattersExactly` | pkg/linuxptp-daemon/pkg/alias/manager.go:33-102 | Two orders of the walk can give different aliases if and only if some interface is torn. |
| `AliasStore.OnePhcIsNotTorn` | pkg/linuxptp-daemon/pkg/alias/manager.go:33-102 | Interfaces with one PHC each are not torn. |
| `AliasStore.TwoPhcsCanTear` | pkg/linuxptp-daemon/pkg/alias/manager.go:33-102 | An interface under two PHCs can be torn. |
| `AliasStore.OnePhcExactly` | pkg/linuxptp-daemon/pkg/alias/manager.go:20-25 | Registering keeps every interface under one PHC exactly if it is not registered under another. |
| `AliasStore.JoinsItsGroup` | pkg/linuxptp-daemon/pkg/alias/manager.go:20-25 | A registered interface joins the group of its PHC at the end; every other group stays. |
| `AliasStore.Store.CalculateAliases` | pkg/linuxptp-daemon/pkg/alias/manager.go:33-102 | The two passes, over maps in any order, give the aliases of that order, which serve every group if and only if no interface is torn. |
| `AliasStore.Store.AddInterface` | pkg/linuxptp-daemon/pkg/alias/manager.go:20-25 | The interface joins the group of its PHC and is known under it; groups are never empty. |

## Left out

- The grandmaster clock: one large decision table whose claims would repeat its branches.
- `event.Data`, sample windows and the freshness of offsets: the worst offset, lost source and lock states of an evaluation are inputs of a step.
- Metrics, logs, debug trees, timestamps: they change no modelled state. Event and subscription ids are inputs; a new subscription id is one not in use.
- uint64 wrap-around of generations and tokens: both are unbounded numbers.
- A panic of a clock ends the daemon: `BoundaryClock.BCClock.AddEvent` says when it panics, and every run is one in which DPLL samples carry the offset that is dereferenced.
- Go channels: a cancel channel is named by the generation of the one timer it was made for.
- The order of the goroutines that announce local data downstream: the code gives none.
- `ClockManager.ClockManager.ProcessEvent`: clocks are values under handles instead of objects, so that two names can share one; the classes of the clocks themselves are in their own modules.
- `ClockManager.RegisteredClocksAgree`: speaks of runs without reset events, because a reset breaks the property; the lemmas on resets say exactly for which clocks.
- Clock class and profile status reported by a High Availability clock: they are only metrics.
- `HaClock.HAClock.SetActiveByIface`: the member picked among several with one interface is any of them, as map iteration picks it.
- JSON encoding of subscriptions and events, the temporary file and its rename: a file holds records, and saving or reading may fail.
- `PubSub.PubSub.Subscribe`: the writer of an endpoint is a function of the endpoint; identity of writers is not modelled.
- Delivery over HTTP, and the reference into the slots that Get returns.
- Equality of SyncE quality levels as floating point: they are compared as integers.
- `Ptp4lConf.Ptp4lConf.Populate`: whether the command line asks for slave mode is an input, as is the text; a missing text is an empty one.
- `Ptp4lConf.Ptp4lConf.Render`: the list of interfaces it also returns is not modelled, since it needs the PHC of a device.
- `PhcTime.UpdatePhc`: measurement, reading and setting are inputs; texts are sequences of characters, not of bytes.
- Log lines at the same time: a line takes its time, moves the expiry and tries the lock in one step, and a turn of the loop is one step.
- Netlink: the kernel is a pin that rejects changes that mix direction with priority or state, or that it is not capable of.
- `PinControl.ClockChain.SetPinsControl`: the refresh of the inventory after commands were sent is not modelled.
- `DaemonSetMerge.WritersDoNotInterfere`: each read-merge-write is atomic; templates are well-formed and have the daemon container.
- Metadata, services and secrets of other merges; the lookup of secrets in the cluster.
- Agreement of the selection of the operator with that of the daemon: they pick opposite ends of the priorities.
- `TelecomClock.TBC.UpdateStateMachine`: the clock offset, the lost source and the time that are kept only for the logs are not in the state.
- Hardware configurations: a failed clear does not restore the last applied ones, so there is no retry to prove.
