# AngelLab verification

A Dafny model of the parts of AngelLab that carry real algorithms or state machines,
with proofs about them. AngelLab is a host monitor: a supervisor daemon (Lab) that runs
worker processes (angels), restarts them, and fans their events out to subscribers.

| files | what they model |
|---|---|
| `ProcNet`, `ProcNetParser`, `ProcNetEquivalence`, `ProcNetRoundTrip`, `ProcNetDivergence` | the two parsers of `/proc/net/tcp`: the simple one, and the fast one with its shared address slab; where they agree, and lines on which they do not |
| `RateTracker`, `Deduplicator` | the sliding-window counter and the TTL map of the Sentinel angel |
| `Addresses`, `Baseline`, `Persist`, `Scorer` | address keys, the learned baseline, its file record, the additive score |
| `Registry`, `Connection`, `SupervisorModel`, `SupervisorSafety`, `SupervisorRuns`, `SupervisorWindows`, `SupervisorOutcomes`, `SupervisorWitnesses`, `Supervisor`, `IdGenerator` | the angels table, the link tracker, the supervisor as a step system with its invariants, run properties and runs that show the exceptions, and the same operations on objects |
| `BroadcasterModel`, `Broadcaster` | lossy bounded event fan-out |
| `Framing` | length-prefixed frames on a byte stream |
| `RssWindow`, `MemoryAngel` | the RSS ring, its growth figures, threshold checks with cooldown |
| `Digits`, `Option` | positional notation and the failure carrier |

Objects that the source updates in place are classes; each method is proved against a
function of the old state, and the laws are proved about that function. Where a law
speaks of whole runs, the class keeps a ghost log of its calls and its invariant ties
the fields to that log, or (supervisor, broadcaster) a step system is given beside the
classes and both use the same per-object functions. Every time reading is a parameter
(integer nanoseconds). Text is a string in which each char stands for one byte.

## Where the code and its documentation differ

The model follows the code.

- The transition table of `internal/lab/connection.go:176-192` is not the set of link
  changes: `MarkRecovered` and `entry_resetConn` set the state directly.
  `SupervisorSafety.LinkMoves` gives the real relation and says exactly which changes
  leave the table; `SupervisorWitnesses.LiveLinkReplaced` and
  `SupervisorWitnesses.LinkUpAtRestart` are runs in which one does.
- `internal/lab/connection.go:125-128` says that a reconnect cancels the recovery timer
  before it fires. After that `Stop` comes too late: a function that was started and gets
  to run after a reconnect and a second drop kills the angel in the new window.
  `SupervisorWindows.ExpiryActs` says exactly when, and
  `SupervisorWitnesses.KilledForClosedWindow` is such a run.
- `README.md:167` and `docs/architecture.md` announce a doubling restart backoff and a
  limit on consecutive failures. The delay is constant, and the persisted restart count
  is never reset.
- `docs/architecture.md` says boot recovery sends SIGTERM and waits; it sends SIGKILL
  and goes on, and it looks only at rows that were ACTIVE or TRAINING.
- The in-memory state of an entry is never CONTAINED or TERMINATED
  (`SupervisorSafety.CoreOk`); those states exist in the registry only. A heartbeat
  after UNSTABLE makes the entry ACTIVE in memory and leaves the row UNSTABLE
  (`SupervisorRuns.HeartbeatRow`, `SupervisorWitnesses.RowStaysUnstable`).
- `internal/angels/memory/memory.go:423-425` treats a non-positive growth as "shrinking
  or flat". The subtraction is unsigned, so a shrinking window shows an enormous growth
  (`RssWindow.PctIsGrowth`, `RssWindow.ShrinkingLooksLikeGrowth`,
  `MemoryAngel.ShrinkingAlerts`).
- `internal/angels/memory/memory.go:459` says a fast and large leak is reported once;
  a critical growth and a rate alert are both emitted (`MemoryAngel.EventsPerCheck`,
  `MemoryAngel.TwoEvents`).
- A larger baseline may raise a score: while no training poll has seen a connection the
  peak is 0 and the spike rule is off (`Scorer.TrainingLowers`, `Scorer.FirstPeakRaises`).
- `OutboundConn.CompactKey` is called a unique identifier. It is one for IPv4, and
  conflates IPv6 peers with equal first four bytes (`Addresses.CompactKeyInjective`,
  `Addresses.CompactKeyCollides`).
- The rule table of `internal/angels/sentinel/scorer.go:26` discounts a private source;
  the code tests the remote address.
- `ParseTCPFile` is presented as the production parser under test; it rejects or reads
  differently some lines that `readProcNetFile` keeps. On files without a line
  that only the fast parser keeps, hence on all files without other white space than
  blanks, tabs and line feeds, `ProcNetEquivalence.ParsersAgree` gives the exact
  condition. With other white space, ASCII or UTF-8, the two see different fields
  (`ProcNet.SplittersAgree`) and either may keep a line the other drops;
  `ProcNetDivergence` has one line for each kind of difference.

## Model

| member | source | states |
|---|---|---|
| Digits.ParseUintMeaning | pkg/linux/procnet.go:208-213 | strconv.ParseUint as used here succeeds exactly on nonempty digit strings whose value fits, and saturates on longer numbers |
| Digits.ParseHex | pkg/linux/procnet.go:291-331 | parseHexUint16/8 accept exactly 1 to 4 (2) hex digits and return the number they spell |
| Digits.ParseDec | pkg/linux/procnet.go:333-345 | parseDecUint64 accepts exactly nonempty decimal strings and returns their value modulo 2^64 |
| Digits.HexDigits | pkg/linux/procnet.go:296-308 | the sixteen digits in both cases, and no other character is one |
| ProcNetParser.SkipBlanks | pkg/linux/procnet.go:498-504 | skipping blanks and tabs loses no field |
| ProcNetParser.FieldEnd | pkg/linux/procnet.go:505-511 | the scan cuts off exactly the next field |
| ProcNetParser.SplitFields | pkg/linux/procnet.go:494-512 | the hand-written separator yields the first eleven maximal blank-free pieces of the line |
| ProcNet.TabIsBlank | pkg/linux/procnet.go:498-504 | a tab separates fields like a blank |
| ProcNet.OddSpaceSeparates | pkg/linux/procnet.go:183-188 | every other white space, ASCII or UTF-8, counts as blanks for bytes.Fields wherever it stands |
| ProcNetParser.ParseIPv4AddrInto | pkg/linux/procnet.go:248-262 | writes the reversed hex bytes into its four-byte window, only if the whole field decodes, and nothing outside it |
| ProcNetParser.ParseAddrInto | pkg/linux/procnet.go:535-545 | one address field decodes into its window and its port, touching nothing else |
| ProcNetParser.ParseInto | pkg/linux/procnet.go:525-567 | a line's fields give a record exactly when they should, in the eight bytes at the write position, leaving the rest of the slab alone |
| ProcNetParser.ParseFields | pkg/linux/procnet.go:525-567 | appending a record, or rejecting a line after scribbling, keeps every earlier record's bytes and all windows disjoint |
| ProcNetParser.Grown | pkg/linux/procnet.go:518-523 | the new slab is fresh, large enough and starts with a copy of the old |
| ProcNetParser.ParseLine | pkg/linux/procnet.go:488-567 | one line extends the found records by at most its own, also when the slab is reallocated |
| ProcNetParser.ParseTCPFile | pkg/linux/procnet.go:461-570 | for any input: one record per good line in order; each address window shows the bytes of its own line at return; no two windows overlap |
| ProcNetParser.ReadProcNetFile | pkg/linux/procnet.go:164-227 | the simple loop returns the record sequence of the slow line reader |
| ProcNetEquivalence.RecordsAgree | pkg/linux/procnet.go:183-224 | the fast parser keeps a subset of the lines the slow one keeps; they agree on a line exactly if the slow one rejects it or its ports, state and inode are narrow |
| ProcNet.SplittersAgree | pkg/linux/procnet.go:183-188 | bytes.Fields and the hand-written separator find the same fields on exactly the lines whose only white space, in ASCII or UTF-8, is blanks and tabs |
| ProcNetEquivalence.ParsersAgree | pkg/linux/procnet.go:461-570 | on every file without a line that only the fast parser keeps, hence on every file of plain lines, the two parsers return the same sequence if and only if they read every line alike, that is, every kept plain line is narrow |
| ProcNetEquivalence.WellFormedFilesAgree | pkg/linux/procnet.go:14-19 | on files of the documented format the parsers agree and keep every data line |
| ProcNetDivergence.PaddedPortDiffers | pkg/linux/procnet.go:291-294 | a line whose port is zero-padded to five digits is kept by the slow parser and dropped by the fast one |
| ProcNetDivergence.BadInodeDiffers | pkg/linux/procnet.go:213 | a line with a malformed inode is kept with inode 0 by the slow parser and dropped by the fast one |
| ProcNetDivergence.LongInodeDiffers | pkg/linux/procnet.go:333-345 | the inode 2^64 saturates in the slow parser and wraps to 0 in the fast one |
| ProcNetDivergence.WideSpaceDiffers | pkg/linux/procnet.go:183-188 | a line with a no-break space in its slot is kept by the fast parser and dropped by the slow one |
| ProcNetDivergence.CarriageReturnDiffers | pkg/linux/procnet.go:494-512 | a ten-field line ended by a carriage return is kept by the slow parser and dropped by the fast one |
| ProcNetRoundTrip.LineRoundTrip | test/stress/sentinel_stress_test.go:88-90 | a printed connection is a well-formed line that parses back to itself |
| ProcNetRoundTrip.FileRoundTrip | test/stress/sentinel_stress_test.go:48-93 | printing any list of connections and parsing the file gives back the list, with either parser and either digit case |
| ProcNetRoundTrip.PrintedIP | pkg/linux/procnet.go:247-262 | little-endian hex printing of an IPv4 address is inverted by decoding |
| ProcNetRoundTrip.IPv6IsFourWords | pkg/linux/procnet.go:272-288 | an IPv6 address decodes exactly if its four words decode as IPv4 addresses, and to their concatenation |
| RateTracker.RateTracker.constructor | internal/angels/sentinel/dedup.go:144-149 | an empty tracker with an empty history |
| RateTracker.RateTracker.Evict | internal/angels/sentinel/dedup.go:198-211 | the live events become those from the first one inside the window on; sizes and costs stay bounded whether or not it compacts |
| RateTracker.RateTracker.Compact | internal/angels/sentinel/dedup.go:206-210 | copying to the front keeps the live events and costs fewer copies than the evictions before it |
| RateTracker.RateTracker.Append | internal/angels/sentinel/dedup.go:162 | append adds one event at the end, reallocating if the array is full |
| RateTracker.RateTracker.Store | internal/angels/sentinel/dedup.go:160-168 | an event is stored unless 4096 are live; the count is returned and the peak kept |
| RateTracker.RateTracker.Add | internal/angels/sentinel/dedup.go:152-169 | returns what the abstract bounded queue returns after the whole history |
| RateTracker.RateTracker.Count | internal/angels/sentinel/dedup.go:172-178 | returns what the abstract bounded queue holds after the whole history |
| RateTracker.RateTracker.MaxSeen | internal/angels/sentinel/dedup.go:181-185 | returns the peak of the abstract queue |
| RateTracker.RateTracker.Reset | internal/angels/sentinel/dedup.go:188-194 | empties the queue and the peak |
| RateTracker.RateTracker.AmortisedCost | internal/angels/sentinel/dedup.go:131-141 | over any run evictions plus copies are at most twice the accepted Adds, at most 4096 events are live and the slice never exceeds 8192 entries |
| RateTracker.QueueIsWindow | internal/angels/sentinel/dedup.go:196-211 | at non-decreasing times the queue shows exactly the stored events of the window, at any time of asking |
| RateTracker.CountIsWindow | internal/angels/sentinel/dedup.go:171-178 | Count is the number of stored events in its window |
| RateTracker.AddIsWindow | internal/angels/sentinel/dedup.go:151-169 | Add stores its event exactly if fewer than 4096 stored events are in the window, and counts it then |
| RateTracker.CountIsAdds | internal/angels/sentinel/dedup.go:128-129 | while no Add was refused, Count is the number of Adds in the window; a refusal needs 4096 of them |
| RateTracker.PeakIsMaximum | internal/angels/sentinel/dedup.go:164-167 | maxSeen is the maximum of what Add returned since the last Reset |
| Deduplicator.Deduplicator.constructor | internal/angels/sentinel/dedup.go:36-43 | an empty map with an empty history |
| Deduplicator.Deduplicator.IsNew | internal/angels/sentinel/dedup.go:45-75 | the answer is that of a reference map nothing leaves by age; the map, the call counter and the last pruning move as the next rows say and agree with the whole run; whatever the run, halving discards 50000 keys none of which is newer than a live one that stays, and never a key reported strictly later than all others |
| Deduplicator.OnRecord | internal/angels/sentinel/dedup.go:69-74 | a key on record stays, renewed if it had expired, and nothing else changes |
| Deduplicator.Insertion | internal/angels/sentinel/dedup.go:53-62 | any other key is inserted; at the 500th insertion since the last such moment, 75 seconds or more after the last pruning, exactly what is older than five minutes goes, and otherwise nothing does but at the cap |
| Deduplicator.AtTheCap | internal/angels/sentinel/dedup.go:63-65 | the map ends below 100000 keys; if keys are discarded they are 50000 of 100000, none reported later than one that stays |
| Deduplicator.Deduplicator.Remember | internal/angels/sentinel/dedup.go:53-66 | storing, lazy pruning and halving keep the map representing the reference |
| Deduplicator.Deduplicator.Prune | internal/angels/sentinel/dedup.go:89-95 | deletes exactly the expired entries, in any iteration order |
| Deduplicator.Deduplicator.PruneHalf | internal/angels/sentinel/dedup.go:97-122 | keeps exactly n - n/2 entries unchanged, none of them older than a dropped one, in any iteration order |
| Deduplicator.Entries | internal/angels/sentinel/dedup.go:103-107 | lists each entry of the map once |
| Deduplicator.SortByTime | internal/angels/sentinel/dedup.go:109-111 | an ascending arrangement of the same entries |
| Deduplicator.MapOf | internal/angels/sentinel/dedup.go:115-119 | the map of exactly the listed entries |
| Deduplicator.Deduplicator.Reset | internal/angels/sentinel/dedup.go:77-81 | forgets every key |
| Deduplicator.Deduplicator.Size | internal/angels/sentinel/dedup.go:83-87 | the number of keys, always below 100000 |
| Deduplicator.AnswerMeaning | internal/angels/sentinel/dedup.go:9-12 | an answer is "new" if and only if every earlier report of the key not removed since by pruneHalf or Reset is more than the TTL back |
| Deduplicator.AskedAgain | internal/angels/sentinel/dedup.go:63-75 | a key reported strictly later than all before it is not new when asked for again within the TTL, even if its report filled the map |
| Deduplicator.ConnectionMeaning | internal/angels/sentinel/dedup.go:9-12 | the same for IPv4 connections: new if and only if every earlier undisturbed report of the same address and port is more than the TTL back |
| Deduplicator.PruningInvisible | internal/angels/sentinel/dedup.go:45-95 | in a run where pruneHalf discards nothing, every answer equals that of a map that never deletes |
| Addresses.CompactKeyMeans | internal/angels/sentinel/baseline.go:194-207 | two keys are equal exactly if the four address bytes and the ports are |
| Addresses.CompactKeyInjective | internal/angels/sentinel/baseline.go:194-207 | among IPv4 peers a key identifies address and port |
| Addresses.CompactKeyIPv6 | internal/angels/sentinel/baseline.go:194-207 | other sixteen-byte peers share a key exactly if their first four bytes and ports agree |
| Addresses.CompactKeyCollides | internal/angels/sentinel/baseline.go:202 | two different IPv6 peers share a key |
| Baseline.Baseline.constructor | internal/angels/sentinel/baseline.go:60-65 | an empty, mutable baseline |
| Baseline.Baseline.Observe | internal/angels/sentinel/baseline.go:81-98 | adds the batch's addresses, ports, size and one sample; changes nothing once frozen |
| Baseline.Baseline.AddAll | internal/angels/sentinel/baseline.go:94-97 | the loop adds exactly the batch's address keys and ports |
| Baseline.Baseline.Freeze | internal/angels/sentinel/baseline.go:102-107 | freezes without changing what was learned |
| Baseline.LearnedMeans | internal/angels/sentinel/baseline.go:6-11 | after any training run the known addresses and ports are exactly those of some observed connection, and the peak is the largest batch |
| Baseline.OrderIrrelevant | internal/angels/sentinel/baseline.go:81-98 | batches in another order give the same baseline |
| Persist.DottedRoundTrip | internal/angels/sentinel/persist.go:69-72 | every 4-byte key survives printing as a dotted quad, parsing and keying |
| Persist.DottedOrder | internal/angels/sentinel/persist.go:69-72 | the bytes are printed first to last |
| Persist.SaveBaseline | internal/angels/sentinel/persist.go:55-77 | the record lists every learned address and port once, in any map order, with peak, sample count and schema version |
| Persist.LoadBaseline | internal/angels/sentinel/persist.go:100-143 | no file gives no baseline, another schema version fails, otherwise a frozen, valid baseline with what the record says |
| Persist.SaveLoad | internal/angels/sentinel/persist.go:55-143 | loading any record that save may write restores exactly the saved model |
| Scorer.PrivateOctets | internal/angels/sentinel/scorer.go:211-227 | the five CIDR tests are exactly the stated octet ranges |
| Scorer.LoopbackOctets | internal/angels/sentinel/scorer.go:120-124 | loopback is 127.0.0.0/8 in four or sixteen bytes, and ::1 |
| Scorer.Scorer.Score | internal/angels/sentinel/scorer.go:117-205 | the total follows the rules; a loopback peer gets -5, no reasons and no entry in the rate tracker, which advances only for new connections; an alert's reasons are exactly the rules that applied and their weights add up to the total before the private-address discount |
| Scorer.Scorer.ApplyRules | internal/angels/sentinel/scorer.go:137-202 | the numeric pass and the reasons pass agree point by point |
| Scorer.RuleTable | internal/angels/sentinel/scorer.go:16-27 | the total in the numbers of the rule table |
| Scorer.Levels | internal/angels/sentinel/scorer.go:9-14 | 3 to 5 points warn, 6 and more are critical, and 14 are the most |
| Scorer.NovelAlerts | internal/angels/sentinel/scorer.go:16-27 | when a new connection to an unknown address stays silent: loopback, or private with known low port and neither burst nor spike, and only then |
| Scorer.RepeatAlerts | internal/angels/sentinel/scorer.go:164-178 | a connection that is not new warns exactly on a spike to a public address, and is never critical |
| Scorer.TrainingLowers | internal/angels/sentinel/scorer.go:117-176 | a model that knows more and has a peak at least as high scores no connection higher if and only if the smaller peak is positive or both are 0 |
| Scorer.FirstPeakRaises | internal/angels/sentinel/scorer.go:163-168 | the first peak turns a silent spike to a known public peer into a warning |
| Scorer.ReloadedScores | internal/angels/sentinel/persist.go:97-143 | a reloaded baseline scores every connection like the saved one |
| Connection.ConnTracker.TransitionTo | internal/lab/connection.go:114-123 | moves along table edges only, otherwise fails without effect |
| Connection.TransitionTable | internal/lab/connection.go:176-192 | the thirteen legal moves |
| Connection.ConnTracker.Lose | internal/lab/connection.go:129-158 | a link that is connecting, registered or active goes to recovering with one armed timer; any other stays as it is |
| Connection.ConnTracker.Recover | internal/lab/connection.go:162-173 | stops the timer, registers the link, reports whether a window was open |
| Connection.ConnTracker.Reset | internal/lab/supervisor.go:314-320 | back to connecting with no timer |
| Connection.ConnTracker.OnTimer | internal/lab/connection.go:150-157 | the function acts exactly if it finds a window open |
| SupervisorSafety.StepKeeps | internal/lab/supervisor.go:174-419 | every step of spawn, run, register, heartbeat, drop, expiry, check, terminate, crash and boot keeps the invariant |
| SupervisorSafety.Reachable | internal/lab/supervisor.go:40-72 | in every reachable state: an open connection implies a registered or active link; an active link implies lifecycle ACTIVE or UNSTABLE; LOST is never seen; a timer exists exactly while recovering; table, rows, children and restart counts are consistent |
| SupervisorSafety.LinkMoves | internal/lab/connection.go:175-192 | links change only by registration, restart, first heartbeat and drop, and such a change is a table edge except when a live link is registered over or an angel restarts with its link up |
| SupervisorWindows.ArmedSince | internal/lab/connection.go:125-158 | every pending timer goes back to a drop since which nothing closed the window |
| SupervisorWindows.ExpiresOnce | internal/lab/connection.go:150-157 | every run of a timer's function is the only one for its recovery window, and the function was started when nothing had closed that window |
| SupervisorWindows.ExpiryActs | internal/lab/connection.go:150-157 | the function finds its own window open exactly if no register, restart or crash has closed it, and another window open exactly if that one was opened after the timer fired |
| SupervisorOutcomes.ExpiryKills | internal/lab/supervisor.go:406-418 | the function kills the recorded pid, if that is an angel, exactly if its own window or one opened after the timer fired is still open, and nothing otherwise |
| SupervisorRuns.VictimWasStarted | internal/lab/supervisor.go:584-599 | every signalled process shows an angel's command line under a number the run started a process under: the entry's own at an expiry, the named entry's at a termination, at boot that of an id whose row still records it and was ACTIVE or TRAINING |
| SupervisorOutcomes.OtherKills | internal/lab/supervisor.go:136-152 | a boot signals exactly the angels that ACTIVE and TRAINING rows record, a termination the angel of the named entry, and nothing else signals |
| SupervisorOutcomes.StartRecorded | internal/lab/supervisor.go:209-224 | a start is on record in the entry and as TRAINING with its pid in the row |
| SupervisorOutcomes.ExitOutcome | internal/lab/supervisor.go:226-247 | an exit leaves the link alone and pauses exactly if a recovery window is open |
| SupervisorOutcomes.RestartOutcome | internal/lab/supervisor.go:249-260 | a counted restart below the limit leads to a restart, one that reaches it to CONTAINED; an uncounted one is taken for the zeroth |
| SupervisorOutcomes.RestartFresh | internal/lab/supervisor.go:262-273 | a restart starts without connection, heartbeat and timer |
| SupervisorOutcomes.LastWord | internal/lab/supervisor.go:209-247 | a goroutine that fails to start leaves UNSTABLE, a cancelled one TERMINATED |
| SupervisorOutcomes.CanGoOn | internal/lab/supervisor.go:209-273 | no goroutine is stuck before it has returned, and each wait but the first can be cancelled |
| SupervisorOutcomes.DropOutcome | internal/lab/supervisor.go:391-419 | a drop opens a window with an armed timer on any link that can be lost and leaves an open one as it is |
| SupervisorOutcomes.CheckOutcome | internal/lab/supervisor.go:456-481 | a check marks exactly the ACTIVE entries of the table whose last heartbeat is older than the timeout |
| SupervisorOutcomes.CheckedRow | internal/lab/supervisor.go:456-481 | and exactly their rows |
| SupervisorOutcomes.Unknown | internal/lab/supervisor.go:330-340 | a message for an unknown id changes nothing |
| SupervisorOutcomes.TerminationRecorded | internal/lab/supervisor.go:488-518 | a termination is on record as TERMINATED |
| SupervisorRuns.ExpiryVictim | internal/lab/supervisor.go:411-417 | an expired window kills the entry's own child exactly while its goroutine still waits for it |
| SupervisorRuns.Born | internal/lab/supervisor.go:174-207 | every entry goes back to a step that created it |
| SupervisorRuns.Birth | internal/lab/supervisor.go:174-207 | only spawns and boots create entries, and the new goroutine counts from the restart count its row had before |
| SupervisorRuns.RestartBound | internal/lab/supervisor.go:249-273 | after the step that created an entry, at every later moment and across crashes, its runAngel has started at most max(1, MaxRestarts - c0) processes plus the restarts whose count could not be written or read back, c0 being the row's restart count before that step |
| SupervisorWitnesses.BoundReached | internal/lab/supervisor.go:249-273 | for every limit some run starts a new angel as often as the bound allows and then contains it |
| SupervisorRuns.JobsCount | internal/lab/supervisor.go:210-273 | the start and failure counts of each goroutine are those of the run |
| SupervisorRuns.OneProcess | internal/lab/supervisor.go:209-224 | at most one live process per entry, and its goroutine is waiting for it |
| SupervisorRuns.ContainedIsFinal | internal/lab/supervisor.go:255-260 | reaching the limit records CONTAINED and the goroutine never starts a process again |
| SupervisorRuns.CountsNeverFall | pkg/registry/registry.go:212-226 | over any run with any crashes and boots no row disappears and no restart count decreases |
| SupervisorRuns.BootRecovers | internal/lab/supervisor.go:125-167 | boot gives a new table entry to exactly the rows that were ACTIVE or TRAINING, leaves TERMINATED rows unchanged and resets every other row to CREATED with pid 0 |
| SupervisorOutcomes.CrashRecovers | internal/lab/supervisor.go:125-167 | an angel whose last life on record before a crash came from a start, a registration or a first heartbeat is back after the next boot |
| SupervisorRuns.HeartbeatRow | internal/lab/supervisor.go:366-385 | after a heartbeat memory says ACTIVE; the row does exactly if this was the first heartbeat of a registration or it did before |
| SupervisorWitnesses.KilledForClosedWindow | internal/lab/supervisor.go:406-418 | a run in which the function of a closed window kills the angel in a later window whose time is not up |
| SupervisorWitnesses.LiveLinkReplaced | internal/lab/connection.go:162-173 | a run in which a second registration takes an active link off the transition table |
| SupervisorWitnesses.LinkUpAtRestart | internal/lab/supervisor.go:308-322 | a run in which a restart takes a registered link off the transition table |
| SupervisorWitnesses.RowStaysUnstable | internal/lab/supervisor.go:366-385 | a run after which the entry is ACTIVE in memory and UNSTABLE in its row |
| SupervisorWitnesses.TrainingRecovered | internal/lab/supervisor.go:125-167 | a run in which Lab crashes before the first heartbeat and the next boot kills and relaunches the angel |
| Supervisor.AngelEntry.constructor | internal/lab/supervisor.go:192-199 | a new entry is CREATED and connecting |
| Supervisor.AngelEntry.AfterExit | internal/lab/supervisor.go:226-229 | an exit makes the entry UNSTABLE without connection |
| Supervisor.AngelEntry.ResetForRestart | internal/lab/supervisor.go:308-322 | a restart clears connection, heartbeat, link and timer |
| Supervisor.Supervisor.SpawnAngel | internal/lab/supervisor.go:174-207 | a fresh entry under the requested or a free id; the row exists and is CREATED; nothing else changes |
| Supervisor.Supervisor.RegisterConn | internal/lab/supervisor.go:330-354 | does the registration step to the addressed entry and row only; fails on an unknown id |
| Supervisor.Supervisor.HandleHeartbeat | internal/lab/supervisor.go:358-386 | does the heartbeat step to the addressed entry; rewrites the row on the first heartbeat only |
| Supervisor.Supervisor.MarkConnLost | internal/lab/supervisor.go:391-419 | does the drop step to the addressed entry only |
| Supervisor.Supervisor.OnRecoveryTimer | internal/lab/supervisor.go:406-418 | kills the recorded pid exactly if a window is open and the pid is verified |
| Supervisor.Supervisor.CheckHeartbeats | internal/lab/supervisor.go:456-481 | exactly the late ACTIVE entries and their rows become UNSTABLE, in any iteration order |
| Supervisor.Supervisor.ApplyRestartPolicy | internal/lab/supervisor.go:249-260 | counts the restart and contains the angel exactly at the limit |
| Supervisor.Supervisor.BootRecovery | internal/lab/supervisor.go:127-167 | kills exactly the verified stale pids, marks rows stale, gives every recoverable id a new untouched entry and leaves the other entries alone |
| Supervisor.Supervisor.TerminateAngel | internal/lab/supervisor.go:488-518 | signals a verified pid and records TERMINATED |
| IdGenerator.NameInjective | internal/lab/supervisor.go:573 | zero-padded names of different numbers differ |
| IdGenerator.NameShape | internal/lab/supervisor.go:573 | "A-" and at least two digits, padded no further |
| IdGenerator.GenerateID | internal/lab/supervisor.go:567-582 | returns the first free A-NN name within one more probe than there are angels |
| BroadcasterModel.Independence | internal/lab/broadcaster.go:58-72 | what a subscriber holds and has received does not depend on any other subscriber |
| BroadcasterModel.RunOk | internal/lab/broadcaster.go:41-46 | ids are given out in order and no buffer exceeds its capacity |
| BroadcasterModel.KeptInOrder | internal/lab/broadcaster.go:65-71 | the publishes that reach a subscriber are, in order, exactly those offered while it was registered and had room |
| BroadcasterModel.DeliveredExactly | internal/lab/broadcaster.go:41-72 | received plus buffered is exactly that subsequence of the published events |
| BroadcasterModel.MissedWhenFull | internal/lab/broadcaster.go:59-70 | with a buffer, an event is missed exactly when the buffer held bufSize |
| BroadcasterModel.ReceiveDelivers | internal/lab/server.go:455-462 | a receive hands over the next event that has reached the subscriber |
| BroadcasterModel.Drained | internal/lab/broadcaster.go:41-56 | n receives hand over n more events or all there are, also after the channel was closed |
| BroadcasterModel.WaiterGets | internal/lab/broadcaster.go:65-71 | a receiver waiting at an empty channel gets the next event, whatever the capacity |
| BroadcasterModel.CancelStops | internal/lab/broadcaster.go:49-54 | a cancelled subscriber is offered nothing more |
| BroadcasterModel.CancelInOrder | internal/lab/broadcaster.go:48-54 | the two halves of a cancel take effect in order and once, and leave the buffer to be received |
| BroadcasterModel.CapacityKept | internal/lab/broadcaster.go:38-46 | a subscriber keeps the capacity it subscribed with |
| Broadcaster.Channel.TrySend | internal/lab/broadcaster.go:66-70 | a non-blocking send to an open channel |
| Broadcaster.Channel.Receive | internal/lab/server.go:455-462 | takes the oldest event or blocks |
| Broadcaster.Channel.Close | internal/lab/broadcaster.go:53 | closes an open channel once |
| Broadcaster.Broadcaster.Subscribe | internal/lab/broadcaster.go:41-56 | a new id with an empty open channel; the others are untouched |
| Broadcaster.Broadcaster.Unregister | internal/lab/broadcaster.go:49-52 | removes one registration and leaves its channel open for the close that follows |
| Broadcaster.Broadcaster.Publish | internal/lab/broadcaster.go:61-72 | offers the event to every registered channel in any order, and never to a closed one |
| Framing.Conn.Send | pkg/ipc/transport.go:115-134 | writes one frame, or nothing for an oversized payload |
| Framing.Conn.ReadFull | pkg/ipc/transport.go:141 | n bytes, or an error with the stream exhausted |
| Framing.Conn.Recv | pkg/ipc/transport.go:138-161 | returns the next frame's payload and leaves the stream behind it, or fails |
| Framing.BigEndianRoundTrip | pkg/ipc/transport.go:124 | a length survives its header |
| Framing.FromBigEndianRoundTrip | pkg/ipc/transport.go:144 | a header is the header of the length it spells |
| Framing.FrameBytes | pkg/ipc/transport.go:115-134 | four bytes of length, the most significant first, and the payload of 1 to 16 MiB |
| Framing.NextIsFrame | pkg/ipc/transport.go:138-161 | a payload is received if and only if the stream opens with its frame |
| Framing.CutFrameFails | pkg/ipc/transport.go:153-155 | a frame cut anywhere is an error, never a shorter message |
| Framing.WireRoundTrip | pkg/ipc/transport.go:115-161 | any sent payloads, followed by any strict prefix of a frame, are received in order and nothing else is |
| Framing.NeverMisframed | pkg/ipc/transport.go:138-161 | whatever is received from arbitrary bytes was framed at their start, up to the first error |
| Framing.Truncation | pkg/ipc/transport.go:138-161 | a stream cut after n bytes yields exactly the frames complete by then |
| Framing.WireInjective | pkg/ipc/transport.go:114-134 | different message lists differ on the wire |
| RssWindow.RssWindow.constructor | internal/angels/memory/memory.go:182-184 | an empty ring of the given capacity |
| RssWindow.RssWindow.Add | internal/angels/memory/memory.go:187-193 | the ring holds the last capacity samples in order |
| RssWindow.RssWindow.Oldest | internal/angels/memory/memory.go:199-204 | the first of them, or the zero sample |
| RssWindow.RssWindow.Newest | internal/angels/memory/memory.go:207-213 | the last of them, or the zero sample |
| RssWindow.RssWindow.GrowthPct | internal/angels/memory/memory.go:217-227 | the unsigned percentage of the bounded list |
| RssWindow.RssWindow.GrowthRateKBps | internal/angels/memory/memory.go:238-252 | the rate of the bounded list |
| RssWindow.RatePositive | internal/angels/memory/memory.go:236-252 | positive exactly if the window is full, grew, and time advanced |
| RssWindow.RateMeans | internal/angels/memory/memory.go:236-252 | kilobytes per second from nanoseconds |
| RssWindow.EmptyOldest | internal/angels/memory/memory.go:221-225 | growth from an empty sample has no percentage |
| RssWindow.PctIsGrowth | internal/angels/memory/memory.go:215-227 | the percentage is the true growth exactly if the window did not shrink, and non-positive exactly if it is flat |
| RssWindow.ShrinkingLooksLikeGrowth | internal/angels/memory/memory.go:226 | any shrinking full window shows at least 200 percent growth |
| MemoryAngel.EventsPerCheck | internal/angels/memory/memory.go:388-488 | at most two events per check, and two exactly if critical growth meets a rate alert |
| MemoryAngel.RulesNamed | internal/angels/memory/memory.go:388-488 | when exactly each of the six rules is named |
| MemoryAngel.TwoEvents | internal/angels/memory/memory.go:429-488 | a window on which one check emits a growth and a rate event |
| MemoryAngel.ShrinkingAlerts | internal/angels/memory/memory.go:422-441 | a shrinking process raises a critical growth event |
| MemoryAngel.CooldownHolds | internal/angels/memory/memory.go:381-386 | two alerting checks of one process are at least the cooldown apart unless it left the target set between them |
| MemoryAngel.MemoryAngel.Decide | internal/angels/memory/memory.go:388-488 | the rule cascade emits the events of its rules |
| MemoryAngel.MemoryAngel.CheckThresholds | internal/angels/memory/memory.go:376-489 | silent in cooldown, otherwise the rules' events; totalAlerts stays the number of alert events |
| MemoryAngel.SampledMeans | internal/angels/memory/memory.go:339-351 | a process has a window exactly if it was found, with its new sample last and the oldest gone if the window was full; no other window changes |
| MemoryAngel.MemoryAngel.Poll | internal/angels/memory/memory.go:335-373 | one check per readable target, in order, each silent in the cooldown of the last alert on record and otherwise with the rules of the window at that moment; afterwards exactly those have windows, exactly the other windowed processes are forgotten, and a cgroup alert follows new OOM kills |
| MemoryAngel.MemoryAngel.Prune | internal/angels/memory/memory.go:357-367 | drops windows and cooldowns of exactly the processes outside the target set |
| MemoryAngel.MemoryAngel.CheckCgroup | internal/angels/memory/memory.go:492-510 | one alert exactly if the OOM counter grew |

## Left out

- Sockets, deadlines, processes, signals, timers and `/proc` walking are parameters or nondeterministic steps; a read deadline that passes is a stream that ends.
- The HELLO exchange, Ping and message kinds: the frames are opaque bytes, so it would add only a comparison of two version numbers.
- msgpack, JSON, TOML and SQLite: a message is a byte string, the baseline file a record, the angels table a map. That a configuration read back from its row keeps its id is assumed by boot recovery.
- Lock granularity: each Supervisor method, each stretch of `runAngel` between two waits, and the check and kill of a timer's function are one step; the timer firing is another, with any steps between the two. Two operations interleaved inside a method are not modelled.
- `runAngel` is a loop over waits, so it appears as steps (`SupervisorModel`) and as the methods `AfterExit`, `ApplyRestartPolicy` and `ResetForRestart`, not as one loop.
- Registry writes other than IncrementRestarts succeed; its two ways of failing are modelled because its result decides about restarting.
- Supervisor.Supervisor.BootRecovery: takes the recoverable ids as an argument, in the order the query gave them.
- ProcNetEquivalence.ParsersAgree: leaves out files with a line that the fast parser keeps and the slow one drops, such as that of `ProcNetDivergence.WideSpaceDiffers`; there the differences of several lines can cancel out.
- net.ParseIP on text containing a colon: the reader of saved baselines is modelled on dotted quads; saved files contain nothing else.
- How Go grows a slice or a map, and the iteration order of a map: any reallocation keeps the contents, and every order is allowed.
- RateTracker.RateTracker.Add: the clock is read before the lock is taken; here the time is an argument. The window laws need non-decreasing times, the refinement of the queue does not.
- MemoryAngel.MemoryAngel.Poll: each process's window is the bounded list that RssWindow is proved to be, not the ring object; percentages and rates are real numbers where Go has float64.
- Broadcaster.Broadcaster.Unregister: a cancel function is called once; calling it twice would close a closed channel and panic.
- Event texts, reason strings, summaries, logging, metrics, the CLI and the TUI.
- Guardian, Process angel, inode cache and `/proc/<pid>/fd` walking: file-system effects, or only set differences and sums.
- `Sentinel.poll` in its training phase, where the scorer does not exist yet.
