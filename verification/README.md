# kenny: models and proofs

kenny watches and administers a small fleet of machines: a Python server, a Rust agent on every
host, and one WebSocket tunnel between them. This project models the parts of it whose correctness
cannot be read off a single function body, and proves properties of those models with Dafny.
`dafny verify dfyconfig.toml` checks everything.

## What is modelled

**Availability** (`Intervals`, `Segments`, `Availability`, `WindowReads`, `Buckets`, `Sorting`,
`Numbers`). `StateAt` says what state a host was in at one second, directly on the raw, unsorted,
overlapping session, run and arrival records. `Compute` is the server's sweep: interval unions, bisection,
breakpoints, a merging loop. It is proved to describe exactly that timeline by its maximal runs,
and that description is unique. `WindowReads` says exactly which seconds can change when only the rows
near the window are read. `Fold` cuts the segments into cells; time is conserved, and each cell is the
share of instants of the timeline.

**The alert engine** (`SectionAlerts`, `AlertEngine`, `Schedules`, `DailySummary`, `Retention`).
`AlertEngine` holds the persisted rows and updates them step by step; `SectionAlerts` follows one
section over whole runs and determines what it emits from its readings alone: when a held
escalation goes out, when a recovery does, how far apart warnings are. `AlertEngine` then shows that
any sequence of passes over any hosts runs every section like that. `Schedules` and
`DailySummary` do the same for the weekly digest and the daily summary, over any interleaving of
passes and summaries. `Retention` is the daily sweep that a tightened setting brings forward.

**Restore on boot** (`Restore`). A staged database is swapped in by five file operations, and any
number of boots may be cut off after any of them.

**The agent session** (`Transcript`, `Tunnel`, `LogBuffer`, `Policy`). The mutual-authentication
transcript and its injectivity; the handshake that gates everything the agent does for a server
(signatures are Ed25519, section 5.1.7 of RFC 8032, as an uninterpreted predicate); the
drop-oldest log buffer as a circular array, with the task that drains it; and the guard's state over
any stream of policy frames and restarts, with the verdict on every tool call.

**Smaller pieces.** `AlertSubject` and `CustomIds` (printing and parsing of keys and button ids,
over `Text`), `LoginThrottle` (with attempts that overlap), `Chunking`, and `ChatHistory`.

Objects the source updates in place are classes whose methods are proved against a function of the
old state; the properties over whole runs are lemmas about those functions.

## Where the code and its documentation differ

The model follows the code. These are results of the project, each proved:

- A crit alert that improves to warn and then to ok sends no recovery, because `since` moves with
  the status (`SectionAlerts.ImprovedEpisodeEndsSilently`). The statement that holds is per level
  (`SectionAlerts.RecoveryIffAlerted`).
- A held warn overtaken by a held crit and then back at warn stays degraded without any alert
  (`SectionAlerts.OvertakenWarningIsNeverSent`).
- The digest clamps its hour and the summary's test for the digest's slot does not, so with
  an out-of-range digest hour the summary never yields its slot (`Schedules.SkipsExactlyDigestSlots`).
- `migrate` is documented as idempotent; it is, except exactly on keys that name no subject and
  whose third field is empty or holds only `+`, such as `alert|a||` (`AlertSubject.MigrateIdempotentIff`).
- A restore that was applied is reported as not applied when the previous boot was cut off between
  its last two steps (`Restore.ReportedIffMoved`).
- A corrupted marker is documented not to block boot. Only a failure of the system to read it is caught:
  a marker that is not valid UTF-8 makes the boot raise before anything is touched, and every later boot
  too. A marker cut short while its first line is written makes the boot raise exactly when the cut falls
  inside a character, or, with the database gone, when what is left is the database's own path or a
  folder that holds it, such as `/data` for `/data/kenny.sqlite`; every later boot raises too in the
  first case and the last (`Restore.CutMarkerLosesIff`, `Restore.SwapLosesIff`, `Restore.RaisesAgainIff`).
- Staging over an existing marker is not crash-safe (`Restore.HalfCopyInstalledIff`); a marker that
  cannot be read abandons the restore, after an interrupted boot with no database left
  (`Restore.UnreadableMarkerAbandons`).
- The throttle is documented to lock a client out after `max_attempts` consecutive failures. The handler
  waits for the password check between asking and recording, so attempts can overlap, and more fail
  before the lock (`LoginThrottle.BoundNeedsOneAtATime`). With at most `c` at once, a lockout is served
  for every `max_attempts + c - 1` failures, and no fewer (`LoginThrottle.ThrottleBound`,
  `LoginThrottle.BoundAttained`).
- A restart is documented never to send a digest twice. A digest is sent again exactly when the sending
  was not stored, because the server stopped in between or the write failed
  (`Schedules.UnstoredSendsAgain`, `Schedules.SentTwiceOnlyIfUnstored`).
- A held escalation is kept so that it is delayed and never lost. A pass takes it away and stamps its row
  before it stores or sends anything, so a pass that stops after that loses the alert of that level, and
  the recovery is still announced; after any earlier stop the alert is still owed
  (`SectionAlerts.AlertLostIff`, `SectionAlerts.UnsentAlertRecovers`).
- The availability read for a window takes a host's first sighting partly from the arrivals it reads, so
  a host whose own clock ran ahead can be unknown at seconds where the history has a state
  (`WindowReads.NarrowReadsIff`, `WindowReads.AheadClockIsHidden`).
- The approval-button builder accepts an empty approval id, which its parser refuses
  (`CustomIds.ApprovalRoundTrip`, `CustomIds.EmptyApprovalIsLost`).

## Model

| member | source | states |
|---|---|---|
| Intervals.Union | kenny-server/kenny_server/availability.py:68-78 | the merged intervals cover exactly the points the raw ones cover, are non-empty and sorted, and leave a gap after each |
| Intervals.MergeStep | kenny-server/kenny_server/availability.py:72-77 | one iteration keeps the form and adds exactly the new interval's points |
| Intervals.CanonicalUnique | kenny-server/kenny_server/availability.py:68-78 | there is only one such list for a given set of points, so the result does not depend on how the intervals were cut or ordered |
| Intervals.Inside | kenny-server/kenny_server/availability.py:81-83 | one bisection over the starts decides whether some interval contains the instant |
| Availability.ClassifyMeetsStateAt | kenny-server/kenny_server/availability.py:143-158 | classification by bisection gives the state that the pointwise definition on the raw records gives, at every second |
| Availability.StateConstant | kenny-server/kenny_server/availability.py:160-167 | the state cannot change where there is no ledger epoch, first sighting, interval bound, arrival or arrival plus threshold |
| Availability.Breakpoints | kenny-server/kenny_server/availability.py:160-167 | the candidates form an increasing list from the window's start to its end that misses no place inside where the state may change |
| Availability.MergeSegments | kenny-server/kenny_server/availability.py:169-178 | the loop yields the maximal runs of the timeline and, per state, the number of seconds spent in it |
| Availability.BootsWithin | kenny-server/kenny_server/availability.py:183-187 | the boots reported are exactly the distinct boots inside the window, oldest first |
| Availability.Compute | kenny-server/kenny_server/availability.py:93-195 | the segments tile the window, agree with the raw records at every second and never repeat a neighbour; the totals are their summed lengths and add up to the window |
| Availability.SegmentOnLedger | kenny-server/kenny_server/availability.py:120-158 | from the epoch on, a segment is online at a second exactly when some session began by then and is open or had not ended, offline exactly when none did and the server was up, by its last touch or as the current run; before the first sighting it is unknown |
| Availability.SegmentOnArrivals | kenny-server/kenny_server/availability.py:137-158 | before the epoch a known host is online at a second exactly when it lies between two arrivals at most `offline_after_secs` apart, or less than that after the last arrival; it is never unknown |
| Availability.RecordOrderIrrelevant | kenny-server/kenny_server/availability.py:93-180 | reordering or repeating sessions, runs or arrivals changes no segment |
| Segments.ExactlyOneSegment | kenny-server/kenny_server/availability.py:169-178 | each second of the window lies in exactly one segment, and that segment names its state and whether it is only reconstructed |
| Segments.DescriptionUnique | kenny-server/kenny_server/availability.py:169-178 | the state at every second determines the segments |
| Segments.SecondsAreLengths | kenny-server/kenny_server/availability.py:169-194 | counting seconds of the timeline and adding segment lengths agree |
| Segments.SecondsPartition | kenny-server/kenny_server/availability.py:188-192 | the seconds online, offline and unknown add up to the length of the window |
| WindowReads.SameConnections | kenny-server/kenny_server/store.py:1004-1055 | the session and run queries drop no row that covers a second of the window |
| WindowReads.KeptSessionIff | kenny-server/kenny_server/store.py:1036-1044 | a session that lasted is read exactly when it holds an instant of the window |
| WindowReads.KeptRunIff | kenny-server/kenny_server/store.py:1004-1016 | a run is read exactly when it is the current one or holds an instant of the window, its last touch included |
| WindowReads.ReportingIff | kenny-server/kenny_server/availability.py:343-348 | arrivals older than one threshold before the window decide no second of it; one after `now` does exactly when it is the next arrival, and the one before lies less than a threshold from the second but more than a threshold from it |
| WindowReads.NarrowReadsIff | kenny-server/kenny_server/availability.py:343-375 | a second of the window has the same state in the narrow read and the whole history except exactly where the narrow read has not seen the host yet and the history has a state, or where such a late arrival splits it |
| WindowReads.SameReportIff | kenny-server/kenny_server/availability.py:312-375 | the narrow read and the whole history give the same segments exactly when no second of the window is changed |
| WindowReads.KnownHostUnchanged | kenny-server/kenny_server/availability.py:353-364 | no second changes for a host whose first collection or session is no later than the window or its first arrival, when no arrival is after `now` |
| WindowReads.AheadClockIsHidden | kenny-server/kenny_server/availability.py:353-364 | a host whose first collection is stamped ahead is offline at a second in the history and unknown in the narrow read |
| Buckets.AddSegment | kenny-server/kenny_server/availability.py:222-239 | one segment adds to every cell, reached or not, exactly its overlap with it, to the online time only when it is online |
| Buckets.Fold | kenny-server/kenny_server/availability.py:198-240 | every cell is the online share of the known time inside it, and holds no data exactly when nothing inside is known |
| Buckets.UnreachedCells | kenny-server/kenny_server/availability.py:229-232 | the cells outside the computed first and last index get nothing from the segment |
| Buckets.ShareIsFraction | kenny-server/kenny_server/availability.py:206-207 | online time never exceeds known time, so a share lies between zero and one |
| Buckets.TimeSplits | kenny-server/kenny_server/availability.py:233-239 | the time in a stretch is the time in its two parts |
| Buckets.CellsConserve | kenny-server/kenny_server/availability.py:204-207 | the cells add up to the time in the whole window: nothing is lost or counted twice |
| Buckets.TimeMeasuresTimeline | kenny-server/kenny_server/availability.py:198-240 | the time added up from segments is the number of scaled instants at which the timeline itself is in a counted state |
| Buckets.CellOfTimeline | kenny-server/kenny_server/availability.py:198-240 | for segments that describe a timeline, a cell is the number of its instants that are online over the number that are online or offline, and no data exactly when there are none of these |
| SectionAlerts.PassKeepsInv | kenny-server/kenny_server/alerting.py:541-613 | every pass keeps: a candidate repeats the row's incident status and nothing has gone out since `since`; a push marker means an incident; it records the status read and stamps exactly what it emits |
| SectionAlerts.RunKeepsInv | kenny-server/kenny_server/alerting.py:541-613 | in every run the row holds the last status read and the time of the last notification |
| SectionAlerts.HeldEscalation | kenny-server/kenny_server/alerting.py:546-613 | while a section stays at the level it escalated to, it alerts exactly at the first pass that confirms it and is critical or past the cooldown, and at no other |
| SectionAlerts.EscalationRows | kenny-server/kenny_server/alerting.py:553-594 | until that pass the candidate is held unchanged with its original time; from then on there is none |
| SectionAlerts.ImprovementIsSilent | kenny-server/kenny_server/alerting.py:603-613 | a warn level reached from crit emits nothing while it lasts |
| SectionAlerts.OvertakenWarningIsNeverSent | kenny-server/kenny_server/alerting.py:553-562 | a held warn that a held crit replaced is lost when the section returns to warn |
| SectionAlerts.AlertLostIff | kenny-server/kenny_server/alerting.py:553-613 | an alert whose pass stopped before sending it is never sent while the level lasts exactly when the row already had its status and the candidate was gone, or the row was written; otherwise it goes out at the first pass that is ready |
| SectionAlerts.UnsentAlertRecovers | kenny-server/kenny_server/alerting.py:405-407 | once the row is written the end of the level is announced although its alert was not |
| SectionAlerts.RecoveryIffAlerted | kenny-server/kenny_server/alerting.py:588-594 | a section recovers exactly when it turns ok from an incident level during which an alert went out, and names that level |
| SectionAlerts.RowKnowsAlert | kenny-server/kenny_server/alerting.py:971-979 | comparing the stamp with `since` decides, in every run, whether the current level was alerted |
| SectionAlerts.LevelAlertedIff | kenny-server/kenny_server/alerting.py:546-594 | an incident level counts as alerted exactly when it was entered by an escalation that has been ready since |
| SectionAlerts.AlertOnReadings | kenny-server/kenny_server/alerting.py:546-594 | a section that turned critical, or turned to a warning from neither, alerts at exactly one pass while it stays there: the first with a newer collection than the one it turned with, or none, where confirmation is asked for, and for a warning more than the cooldown after every earlier notification |
| SectionAlerts.ConfirmedCritIff | kenny-server/kenny_server/alerting.py:570-575 | where confirmation is asked for, a critical finding collected at `a` and seen in no newer collection since alerts at a pass collected at `b` exactly when `a < b` |
| SectionAlerts.RecoveryOnReadings | kenny-server/kenny_server/alerting.py:588-594 | a section that turns ok recovers exactly when the warn or crit it leaves was alerted while it lasted |
| SectionAlerts.SilentOnReadings | kenny-server/kenny_server/alerting.py:546-594 | a posture finding, or a warning that was critical before, emits nothing |
| SectionAlerts.PushedOnReadings | kenny-server/kenny_server/alerting.py:596-655 | the marker stands exactly while an incident lasts during which the section was in a pushed alert |
| SectionAlerts.EmitsByReadings | kenny-server/kenny_server/alerting.py:541-613 | every pass of every run emits exactly what its readings call for: an alert at the first ready reading of an escalated level, a recovery on turning ok from one, nothing otherwise |
| SectionAlerts.RecoveriesInject | kenny-server/kenny_server/alerting.py:588-594 | two recoveries never answer the same alert: each one's alerts come after the recovery before |
| SectionAlerts.ImprovedEpisodeEndsSilently | kenny-server/kenny_server/alerting.py:588-613 | alerted as crit, improved to warn, then ok: no recovery is sent |
| SectionAlerts.PushedIffPushedSince | kenny-server/kenny_server/alerting.py:596-599 | the pushed marker exists exactly while the incident whose alert was pushed lasts |
| SectionAlerts.FlapBound | kenny-server/kenny_server/alerting.py:967-969 | every warn alert comes more than the cooldown in force after every earlier alert or recovery of the section |
| SectionAlerts.AlertsNeverExceedEscalations | kenny-server/kenny_server/alerting.py:541-594 | in every prefix of every run, alerts sent plus the one still held never outnumber escalations |
| SectionAlerts.RecoveriesNeverExceedAlerts | kenny-server/kenny_server/alerting.py:588-594 | in every prefix of every run, recoveries never outnumber alerts, with one alert to spare while an alerted level lasts |
| AlertEngine.Engine.HoldCandidate | kenny-server/kenny_server/alerting.py:553-562 | an escalation is recorded once with the time it was first seen; a candidate is dropped exactly when the section resolved or improved below it |
| AlertEngine.Engine.EvaluateSection | kenny-server/kenny_server/alerting.py:531-613 | one iteration moves the three rows of its own section and no other row |
| AlertEngine.Engine.EvaluateAll | kenny-server/kenny_server/alerting.py:531-613 | the loop treats every section as if it were alone and collects the alerting and recovering ones in order |
| AlertEngine.Engine.MarkPushed | kenny-server/kenny_server/alerting.py:651-655 | exactly the sections of the alert get the marker, and none loses it |
| AlertEngine.Engine.HealthTransitions | kenny-server/kenny_server/alerting.py:505-673 | every section takes its own step; the alerts share one notification that pushes exactly when one is crit; the recoveries share one that pushes exactly when one had been pushed and no operator caused it |
| AlertEngine.AlertLinesOf | kenny-server/kenny_server/alerting.py:577-579 | a line is in the alert exactly when its section alerts with that severity |
| AlertEngine.CritLineIffAnyCrit | kenny-server/kenny_server/alerting.py:580-585 | the worst severity kept during the loop is crit exactly when some section alerts as crit |
| AlertEngine.RecoveryLinePushed | kenny-server/kenny_server/alerting.py:596-599 | a recovery counts as pushed exactly when some section it names had the marker |
| AlertEngine.PassesRunSections | kenny-server/kenny_server/alerting.py:323-337 | after any sequence of passes over any hosts, with any looks at forecasts in between, the rows of every section are those of a run of its own readings |
| AlertEngine.NotesAreEmits | kenny-server/kenny_server/alerting.py:577-594 | in any such life a pass names a section in its alert or recovery exactly when the run of that section alone emits it |
| AlertEngine.ReadingsIncrease | kenny-server/kenny_server/alerting.py:505-513 | when passes over a host move forward in time, so do the readings of each of its sections |
| AlertEngine.ReadingSays | kenny-server/kenny_server/alerting.py:531-545 | a section's reading holds its own status, the pass's time, collection and cooldown, and whether some section of the pass alerts as crit |
| AlertEngine.Engine.MaybeSendDigest | kenny-server/kenny_server/alerting.py:1171-1235 | the stored instant and the sending follow the slot rule, and nothing happens while disabled or without a channel |
| AlertEngine.Engine.DailyFindings | kenny-server/kenny_server/alerting.py:1313-1340 | the new findings are exactly the open, unpushed ones notified since, and the count is that of all other open ones |
| AlertEngine.Engine.MaybeSendDaily | kenny-server/kenny_server/alerting.py:1237-1304 | a section is listed exactly when its rows and the window say it is new; the window moves at every slot taken, listed or not; a summary goes out exactly when some new finding has a line, which needs a stored snapshot unless it is a forecast |
| AlertEngine.Engine.OfflineTransition | kenny-server/kenny_server/alerting.py:412-501 | the two presence rows of the host and its one notification; no other host's rows change |
| AlertEngine.AbsenceNotes | kenny-server/kenny_server/alerting.py:466-501 | over any run of looks, going missing always alerts, reporting again always recovers, nothing else notifies, and being offline never does |
| AlertEngine.Engine.HardwareForecastAlert | kenny-server/kenny_server/alerting.py:904-963 | it notifies exactly when a pair is at risk that was not at the look before, remembers the current set, and keeps the row a warning exactly while the set is non-empty |
| AlertEngine.Engine.DiskForecastAlert | kenny-server/kenny_server/alerting.py:809-865 | it notifies exactly when a volume is filling up and none was at the look before; the row is a warning exactly while one is, and no other row changes |
| Schedules.DigestSlotIsLatest | kenny-server/kenny_server/alerting.py:1195-1200 | the slot has the configured weekday and hour, is the latest such instant not after now, and is less than a week old |
| Schedules.DailySlotIsLatest | kenny-server/kenny_server/alerting.py:1261-1263 | the slot has the configured hour, is the latest such instant not after now, and is less than a day old |
| Schedules.SkipsExactlyDigestSlots | kenny-server/kenny_server/alerting.py:1306-1311 | the summary yields its slot exactly when an enabled digest occupies it and the configured digest hour is a real hour |
| Schedules.ServesIffSlotPassed | kenny-server/kenny_server/alerting.py:1188-1202 | a tick serves exactly when a slot lies after the tick before and not after this one; the first never does |
| Schedules.SlotServedOnce | kenny-server/kenny_server/alerting.py:1201-1202 | two ticks that serve never serve the same slot |
| Schedules.DigestSentIffSlotPassed | kenny-server/kenny_server/alerting.py:1183-1235 | under a fixed configuration the digest goes out at a tick exactly when a weekly slot has passed since the tick before |
| Schedules.SentTwiceOnlyIfUnstored | kenny-server/kenny_server/alerting.py:1212-1234 | one slot is sent for twice only if the first sending was not stored |
| Schedules.UnstoredSendsAgain | kenny-server/kenny_server/alerting.py:1212-1234 | the next tick of the slot repeats a sending exactly when it was not stored |
| Schedules.DailyTakenIffSlotPassed | kenny-server/kenny_server/alerting.py:1253-1275 | a daily slot is taken at a tick exactly when one has passed since the tick before |
| DailySummary.StampIsLatestNotice | kenny-server/kenny_server/alerting.py:600-613 | over any interleaving, the row's stamp is the time of the section's latest notification |
| DailySummary.StampedByNotice | kenny-server/kenny_server/alerting.py:600-613 | and there is no stamp without a notification |
| DailySummary.WindowIsLatestMove | kenny-server/kenny_server/alerting.py:1255-1275 | over any interleaving, the stored window start is the latest baseline or taken slot |
| DailySummary.WindowWasMoved | kenny-server/kenny_server/alerting.py:1255-1275 | and there is none before the first of these |
| DailySummary.TakesSlotIff | kenny-server/kenny_server/alerting.py:1253-1275 | a summary takes a slot exactly when the configured hour of some day has come since the stored instant |
| DailySummary.DigestMorningIff | kenny-server/kenny_server/alerting.py:1306-1311 | it leaves the slot to the digest exactly when the digest is enabled for the slot's weekday and that very hour |
| DailySummary.ListedIff | kenny-server/kenny_server/alerting.py:1253-1335 | a summary lists a finding as new exactly when it takes a slot that is not the digest's and the finding is open, unpushed and last notified after the window last moved |
| DailySummary.FirstSlotLists | kenny-server/kenny_server/alerting.py:1253-1335 | the first slot taken after a notice lists the finding exactly when it is still open and unpushed and the slot is not the digest's |
| DailySummary.ListedOnce | kenny-server/kenny_server/alerting.py:1264-1277 | no later summary lists it again unless it was notified in between |
| DailySummary.BeforeBaselineNeverListed | kenny-server/kenny_server/alerting.py:1255-1260 | a notice older than the first summary tick is never listed |
| Retention.Pruner.MaybePrune | kenny-server/kenny_server/alerting.py:1436-1472 | a pass sweeps exactly when a day is over or some store's setting went down, sweeps every store with its own days, and remembers every setting it saw |
| Retention.NeverADayLate | kenny-server/kenny_server/alerting.py:1437-1445 | after every pass the latest sweep is less than a day old |
| Retention.TighteningIsImmediate | kenny-server/kenny_server/alerting.py:1437-1441 | after every pass the latest sweep used no more days than the setting now allows, when the setting had a value at the sweep and has one now, whatever lies between |
| Retention.LooseningWaits | kenny-server/kenny_server/alerting.py:1441 | while no setting went down, a pass sweeps exactly when a day has passed |
| Restore.LayoutDistinct | kenny-server/kenny_server/backup.py:339-340 | for every database path the database, its two companions, the pending copy and the marker are five different files |
| Restore.Disk.StageRestore | kenny-server/kenny_server/backup.py:341-355 | a backup that passes its check leaves a complete copy and a marker naming it, the copy first; one that fails changes nothing |
| Restore.Disk.ApplyPendingRestore | kenny-server/kenny_server/backup.py:361-400 | the files after the boot and after every single operation of it, and what it reports |
| Restore.Disk.Swap | kenny-server/kenny_server/backup.py:395-398 | the swap leaves, step by step, the states of the plan, and stops where replacing raises |
| Restore.CutOffAdvances | kenny-server/kenny_server/backup.py:395-398 | a boot cut off anywhere moves an interrupted restore forward or leaves it, never back |
| Restore.RestoreIsCrashSafe | kenny-server/kenny_server/backup.py:361-400 | after any number of boots cut off anywhere, one full boot leaves the backup as the database, no companions, no pending copy, no marker, and every other file as it was, exactly when no folder stands in place of the database or a companion |
| Restore.RestoreOnPaths | kenny-server/kenny_server/backup.py:339-400 | the same on the five paths by their suffixes: the backup is the database, the other four paths are gone, and every other path is as it was |
| Restore.NeverMixed | kenny-server/kenny_server/backup.py:395-398 | no state on the way pairs the restored database with old companions, or the old one with fewer of its own |
| Restore.ReportedIffMoved | kenny-server/kenny_server/backup.py:364-368 | the finishing boot reports the restore exactly when the pending copy was still there for it to move, and raises exactly when a folder stands in place of the database or a companion |
| Restore.BaseNameIs | kenny-server/kenny_server/backup.py:384 | the name reported without a second line is the last part of the path that is not empty, whatever slashes follow it |
| Restore.DotIsNoName | kenny-server/kenny_server/backup.py:384 | a dot as the last part of the path does not count |
| Restore.UnstagedBoot | kenny-server/kenny_server/backup.py:370-394 | without a marker, or with one that names nothing that exists, a boot touches nothing but the marker, wherever it is cut off; it raises and leaves that too exactly when it is a folder or does not decode |
| Restore.SwapLosesIff | kenny-server/kenny_server/backup.py:395-398 | whatever existing path the marker names, no database is left exactly when it is a folder or one of the three files unlinked first; the boot raises exactly for those three and for a folder that holds the database; any other file becomes the database |
| Restore.RaisesAgainIff | kenny-server/kenny_server/backup.py:374-398 | after a boot that raised, the next one raises exactly when the marker is a folder, can be read but not decoded, or names a folder, and then changes nothing |
| Restore.CutMarkerLosesIff | kenny-server/kenny_server/backup.py:351-353 | which cuts of the marker, at any byte of its first line, lose the database, which raise, which raise at every later boot, which install another file and which are harmless |
| Restore.HalfCopyInstalledIff | kenny-server/kenny_server/backup.py:347-355 | a half-written copy is installed by the next boot exactly when an earlier marker was still there |
| Restore.UnreadableMarkerAbandons | kenny-server/kenny_server/backup.py:375-381 | an unreadable marker gives the restore up and keeps the copy; after an interrupted boot there is then no database |
| Transcript.Build | kenny-agent/src/keys.rs:150-172 | the bytes appended in turn are label, id, client nonce and server nonce with one NUL between |
| Transcript.TranscriptSpelled | kenny-agent/src/keys.rs:142-172 | the label spells `kenny-mutual-auth-v1` in ASCII, and label, id and nonces follow in this order with a zero byte between |
| Transcript.Injective | kenny-agent/src/keys.rs:142-172 | for NUL-free ids and client nonces of one length the transcript determines the id and both nonces, whatever the server nonces' lengths |
| Transcript.SharedIff | kenny-agent/src/keys.rs:142-172 | two different ids can share a transcript exactly when one continues the other past a NUL byte with a rest that fits in a client nonce or has a NUL right after one |
| Transcript.FullRestAlwaysShares | kenny-agent/src/keys.rs:150-172 | when that rest is as long as a client nonce, they share one for every nonce of the longer id |
| Tunnel.Session.RunHandshake | kenny-agent/src/tunnel.rs:368-425 | which inbound messages are tolerated, which abort, and that an answer is sent only to a verified challenge |
| Tunnel.Session.ReadLoop | kenny-agent/src/tunnel.rs:543-574 | the loop reacts to every message until the stream closes or breaks |
| Tunnel.Session.React | kenny-agent/src/tunnel.rs:577-624 | requests are dispatched, policies applied, pings answered, everything else ignored |
| Tunnel.Session.ServeOnce | kenny-agent/src/tunnel.rs:169-275 | a session registers, proves the server on the signature path, and only then starts its tasks and serves |
| Tunnel.TrustNeedsProof | kenny-agent/src/tunnel.rs:240-275 | whatever arrives, everything done for the server on the signature path comes after a challenge whose signature verifies over this session's own transcript |
| Tunnel.AuthSignsVerifiedTranscript | kenny-agent/src/tunnel.rs:417-424 | the answer signs the very transcript that was verified |
| Tunnel.AbortedSendsOnlyRegister | kenny-agent/src/tunnel.rs:267-273 | an aborted session has sent its registration and nothing else |
| Tunnel.RegistersFirst | kenny-agent/src/tunnel.rs:199-220 | every session registers once, first, and gives its nonce exactly on the signature path |
| Tunnel.ServesIffGenuineFirst | kenny-agent/src/tunnel.rs:384-424 | the session serves exactly when, control pings and pongs aside, a genuine challenge comes first |
| Tunnel.ProvenOnChallenge | kenny-agent/src/tunnel.rs:384-424 | a session whose first frame is a challenge is proven exactly when both nonces decode, the signature verifies over the transcript of this agent, this session's nonce and the server's, and the answer can be sent; the answer signs those bytes |
| Tunnel.NoReplay | kenny-agent/src/tunnel.rs:408-424 | while a signature verifies for no two transcripts, one challenge never proves sessions of different ids or different client nonces, for ids without a zero byte and nonces of one length |
| Tunnel.EveryMessageActedOn | kenny-agent/src/tunnel.rs:543-624 | every message up to the end of the stream is read and at once acted on: requests dispatched, policies applied, pings answered, nothing else done |
| Tunnel.EveryRequestDispatched | kenny-agent/src/tunnel.rs:577-605 | a serving session dispatches every request once, in order |
| Tunnel.LegacyPathNeedsNoProof | kenny-agent/src/tunnel.rs:173-190 | off the signature path a request is dispatched with no proof at all |
| Tunnel.Backoffs | kenny-agent/src/tunnel.rs:89-132 | the delay after a session is one second doubled once per session since the latest clean one, up to a minute |
| Tunnel.DelayStep | kenny-agent/src/tunnel.rs:89-132 | the first delay and the one after a clean session are one second; any other is twice the one before, a minute at most |
| Tunnel.DelaysGrow | kenny-agent/src/tunnel.rs:89-132 | delays lie between a second and a minute and never shrink while sessions keep failing |
| LogBuffer.Ring.Push | kenny-agent/src/log_forward.rs:74-86 | the new event is last, and the oldest is dropped exactly when the buffer was full |
| LogBuffer.Ring.DrainInto | kenny-agent/src/log_forward.rs:90-97 | the oldest events, at most as many as asked for, are handed out in order and the rest stay |
| LogBuffer.EveryRunSound | kenny-agent/src/log_forward.rs:74-97 | for every interleaving, drained events are an increasing selection of the pushed ones, and pushed equals drained plus buffered plus dropped |
| LogBuffer.BufferIsTail | kenny-agent/src/log_forward.rs:74-97 | the buffer is the last of the events pushed since the newest drained one, as many as the capacity (256 in the agent) allows |
| LogBuffer.DrainHandsOutRecorded | kenny-agent/src/tunnel.rs:323-335 | the events a drain hands out are the pushed events at the recorded positions |
| LogBuffer.DropsNeedFullBuffer | kenny-agent/src/log_forward.rs:79-81 | drains that keep up lose nothing |
| LogBuffer.WaitingBound | kenny-agent/src/tunnel.rs:323-335 | in every run of pushes, drains and sessions, when the task waits no wake-up is kept for it and at most the capacity less one batch of 64 waits in the buffer |
| LogBuffer.LeavesExactly | kenny-agent/src/tunnel.rs:324-326 | with nothing more pushed, the task runs exactly as often as wake-ups are owed and then waits with exactly what those batches leave |
| LogBuffer.BurstLeaves | kenny-agent/src/tunnel.rs:323-335 | what a burst leaves waiting, exactly: it is drained twice when the task is woken and another wake-up is kept, once otherwise |
| LogBuffer.FullBursts | kenny-agent/src/tunnel.rs:323-335 | a burst that fills the buffer leaves the capacity less two batches when the task was waiting, less one batch when no session was there |
| LogBuffer.AgentBursts | kenny-agent/src/log_forward.rs:25 | with the agent's 256 events and batches of 64, that is 128 and 192 events |
| Policy.Guard.SetOperatorRules | kenny-agent/src/policy.rs:380-383 | the operator's rules are replaced by the compilable ones given, in order |
| Policy.Guard.SetShellPolicy | kenny-agent/src/policy.rs:243-259 | the mode applies at once; the file holds it, stays, or is cut short as the write goes |
| Policy.Guard.SetCollect | kenny-agent/src/policy.rs:354-363 | only the one known key moves the gate |
| Policy.Guard.ApplyFrame | kenny-agent/src/policy.rs:319-336 | a frame replaces the rules, and the mode and gate only when it carries them |
| Policy.Guard.constructor | kenny-agent/src/policy.rs:269-287 | a start has no operator rules, an open gate, and the mode of a readable file, otherwise unrestricted |
| Policy.GroupMembers | kenny-agent/src/policy.rs:96-124 | a group holds exactly the compilable rules for its surface |
| Policy.StoredByLastCarrier | kenny-agent/src/policy.rs:243-259 | the file depends on the last frame that carried a mode and on how its write went, on nothing in between |
| Policy.ShellInForce | kenny-agent/src/policy.rs:234-287 | the mode in force is the last one carried, unless a restart came after a failed write, and then it is exactly what the file still says |
| Policy.RestartedShell | kenny-agent/src/policy.rs:204-259 | after a restart the last carried mode is in force if its write went through, what the file held before if it was refused, and no restriction if it was cut short or there was no file |
| Policy.LastCarriedShellWins | kenny-agent/src/policy.rs:243-287 | with successful writes, any stream of frames and restarts leaves the last carried mode in force |
| Policy.NoCarrierKeepsFile | kenny-agent/src/policy.rs:269-287 | until a frame carries a mode, the restored one stays |
| Policy.RulesInForce | kenny-agent/src/policy.rs:319-383 | the operator rules are the last frame's since the start, and none before it |
| Policy.GateInForce | kenny-agent/src/policy.rs:338-363 | the gate is the last explicit value since the start, and open without one |
| Policy.MatchGroupIff | kenny-agent/src/policy.rs:434-454 | a text is refused exactly when some compilable rule of the surface, built-in or the operator's, matches it |
| Policy.GateIff | kenny-agent/src/policy.rs:291-314 | a shell command is admitted exactly when the mode is unrestricted, or the anchored pattern of an allow rule of that shell matches it |
| Policy.CheckIff | kenny-agent/src/policy.rs:389-430 | a call passes exactly when no deny rule matches any text it is screened on, the shell mode permits it, and a download host is allowed |
| Policy.ShellCallIff | kenny-agent/src/policy.rs:391-405 | a script or command passes exactly when no compilable rule of its shell or for self-protection matches its argument, and the mode is unrestricted or an allowlist whose anchored entry for that shell matches it trimmed; a missing argument is empty |
| Policy.MutatingCallIff | kenny-agent/src/policy.rs:406-419 | the five mutating tools pass exactly when no compilable PowerShell or self-protection rule matches all their strings together |
| Policy.RestartCallIff | kenny-agent/src/policy.rs:420-423 | a service restart passes exactly when no compilable self-protection rule matches its name |
| Policy.PathCallIff | kenny-agent/src/policy.rs:424-425 | reads and listings are decided by the path rules on `path`, searches on `root`, both with backslashes for slashes |
| Policy.UnscreenedCallIff | kenny-agent/src/policy.rs:426-427 | a download passes exactly when its address is allowed; tools not named always pass |
| Policy.FirstMatchFirst | kenny-agent/src/policy.rs:442-455 | the rule given as the reason is the first of its list that matches |
| Policy.BuiltinAlwaysBlocks | kenny-agent/src/policy.rs:434-441 | a built-in rule that matches blocks the call in every state frames and restarts can reach |
| Policy.BuiltinBlocksArgs | kenny-agent/src/policy.rs:391-430 | in every state frames and restarts can reach, a compilable built-in rule for a surface of the tool that matches the argument screened there blocks the call |
| Policy.MoreRulesNeverUnblock | kenny-agent/src/policy.rs:376-383 | adding operator rules never lets a blocked call through |
| AlertSubject.KeyIgnoresOrder | kenny-server/kenny_server/alert_subject.py:47-51 | sections in any order give the same key |
| AlertSubject.ParseInvertsKey | kenny-server/kenny_server/alert_subject.py:54-75 | parsing a key built from sections gives back the host, the space and the sorted sections |
| AlertSubject.BareKey | kenny-server/kenny_server/alert_subject.py:47-75 | a key without sections parses to its host, its space and the event type it stands for |
| AlertSubject.KeySpelled | kenny-server/kenny_server/alert_subject.py:40-57 | a key is `alert`, host, `change` or `state`, and the sections in order joined by `+` or else the event, with bars between |
| AlertSubject.SameKeyIff | kenny-server/kenny_server/alert_subject.py:47-51 | two keys are equal exactly when host, space and the multiset of sections agree |
| AlertSubject.MigrateParses | kenny-server/kenny_server/alert_subject.py:78-101 | a migrated key parses to the same host and subjects, in a current space, and names no subject exactly when it could not be settled |
| AlertSubject.MigrateIdempotentIff | kenny-server/kenny_server/alert_subject.py:78-101 | migrating twice is migrating once exactly unless the key names no subject and its space field is only joiners |
| AlertSubject.MigrateSettlesInTwo | kenny-server/kenny_server/alert_subject.py:78-101 | a third migration never changes anything |
| Text.SplitJoin | kenny-server/kenny_server/alert_subject.py:47-75 | splitting undoes joining for parts free of the separator |
| Text.SortedIff | kenny-server/kenny_server/alert_subject.py:50 | two sorted lists are equal exactly when the multisets are |
| Text.LeqMeans | kenny-server/kenny_server/alert_subject.py:50 | the order is by the first character that differs, a text coming before those it begins |
| CustomIds.ApprovalRoundTrip | kenny-server/kenny_server/discord_adapter.py:311-345 | an id of at most 100 characters reads as a click exactly when the builder makes it from that click and the approval id is not empty |
| CustomIds.HostRoundTrip | kenny-server/kenny_server/discord_adapter.py:363-398 | the same for host pickers without exception; an agent id with separators comes back whole |
| CustomIds.IdsAreUnambiguous | kenny-server/kenny_server/discord_adapter.py:373-375 | an approval id never reads as a host choice, and different clicks never share an id |
| CustomIds.IdsSpelled | kenny-server/kenny_server/discord_adapter.py:311-398 | when an id is built and how it is written: prefix, action or request, and approval or agent, with colons, at most 100 characters |
| CustomIds.EmptyApprovalIsLost | kenny-server/kenny_server/discord_adapter.py:311-345 | the builder makes a button its parser refuses |
| LoginThrottle.LoginRateLimiter.RetryAfter | kenny-server/kenny_server/auth.py:634-645 | how long the key must wait, forgetting it exactly when its lockout is over; other keys are untouched |
| LoginThrottle.LoginRateLimiter.RecordFailure | kenny-server/kenny_server/auth.py:647-650 | the key's count goes up and locks from now once the maximum is reached; other keys are untouched |
| LoginThrottle.LoginRateLimiter.Reset | kenny-server/kenny_server/auth.py:652-654 | nothing is left of the key; other keys are untouched |
| LoginThrottle.LoginRateLimiter.Settle | kenny-server/kenny_server/auth.py:714-737 | once the check is back, a failed password or code is recorded and a success forgets the key; other keys are untouched |
| LoginThrottle.LoginRateLimiter.Login | kenny-server/kenny_server/auth.py:684-743 | with nothing in between, the handler asks before verifying, records every failed password or code, forgets on success, and changes no other key |
| LoginThrottle.RunSound | kenny-server/kenny_server/auth.py:634-654 | in every interleaving with at most `c` attempts open, a key is locked exactly when its count has reached the maximum, and it passes it by less than `c` |
| LoginThrottle.ThrottleBound | kenny-server/kenny_server/auth.py:603-612 | from any state, with at most `c` attempts open at once, the N-th failure without a success comes at least floor((N-1)/(max+c-1)) lockouts after the first; one at a time, floor((N-1)/max) |
| LoginThrottle.RefusedIff | kenny-server/kenny_server/auth.py:699-711 | an attempt is turned away exactly when the count is full and the last failure is less than a lockout ago |
| LoginThrottle.SuccessForgets | kenny-server/kenny_server/auth.py:724 | a success leaves nothing of what came before it |
| LoginThrottle.CountsFailures | kenny-server/kenny_server/auth.py:647-650 | every failure counts once, and the key locks for a lockout exactly when the count reaches the maximum |
| LoginThrottle.OthersDoNotMatter | kenny-server/kenny_server/auth.py:695-699 | a key's state after any interleaving is that of its own events alone |
| LoginThrottle.BoundNeedsOneAtATime | kenny-server/kenny_server/auth.py:699-737 | more attempts than the maximum, all let in before the first is settled, are all recorded at one instant and beat the one-at-a-time bound |
| LoginThrottle.BoundAttained | kenny-server/kenny_server/auth.py:699-737 | for every maximum, lockout and `c`, some interleaving with at most `c` open spaces its failures, however many, exactly as the bound says |
| Chunking.LinesEndAtBreaks | kenny-server/kenny_server/discord_adapter.py:188 | a line begins at a position exactly when a terminator ends just before it, a carriage return and its line feed counting as one |
| Chunking.LinesTile | kenny-server/kenny_server/discord_adapter.py:188 | every line is what lies between its offsets in the content, terminators kept, and the last ends it |
| Chunking.SplitLong | kenny-server/kenny_server/discord_adapter.py:189-197 | an over-long line is cut into full pieces and a rest, nothing lost |
| Chunking.ChunkMessage | kenny-server/kenny_server/discord_adapter.py:174-205 | the pieces put together are the content, each fits, none is empty unless the content is; a line is cut only if it fits nowhere, and a piece ends at a line end only when the next line would not fit, or when it ends a line that was cut |
| Chunking.DueMeans | kenny-server/kenny_server/discord_adapter.py:187-205 | what makes a cut due, on the lines and the length of the piece before it |
| ChatHistory.Session.HealSession | kenny-server/kenny_server/chat.py:729-762 | the trailing message is dropped exactly when it holds unanswered calls, and the transient loop state is cleared |
| ChatHistory.Session.AppendRunNote | kenny-server/kenny_server/chat.py:503-546 | when the note is refused and why, that a refusal changes nothing, and where the note goes otherwise |
| ChatHistory.Session.AppendUserText | kenny-server/kenny_server/chat.py:549-561 | the marked text joins a trailing message of notes or becomes a message of its own |
| ChatHistory.Session.RunTurn | kenny-server/kenny_server/chat.py:807-815 | a turn heals and then asks, unless a confirmation is pending |
| ChatHistory.HealAnswersIff | kenny-server/kenny_server/chat.py:729-762 | healing leaves every call answered exactly when only the last message could be at fault |
| ChatHistory.HealDropsOnlyOpenCalls | kenny-server/kenny_server/chat.py:732-739 | a whole history is left alone, and no more than one message is ever dropped |
| ChatHistory.AnsweredIff | kenny-server/kenny_server/chat.py:735-739 | a message's calls are answered exactly when every one has a result with its id in the user message right after |
| ChatHistory.NoteKeepsAnswersIff | kenny-server/kenny_server/chat.py:522-533 | a note would come between a call and its result exactly in the case the guard refuses |
| ChatHistory.QuestionKeepsAnswersIff | kenny-server/kenny_server/chat.py:549-561 | a question alone keeps calls answered exactly when the last message has none open |
| ChatHistory.TurnStartsWhole | kenny-server/kenny_server/chat.py:811-815 | whatever an abort left, the model is called on a history with every call answered |
| ChatHistory.ConversationsStayWhole | kenny-server/kenny_server/chat.py:503-561 | in every conversation of notes, questions and driven turns only the last message can have open calls, and none has when a question was just asked |
| ChatHistory.NoteKeepsTurnsIff | kenny-server/kenny_server/chat.py:538-545 | a note makes two user messages adjacent only after one with neither text nor blocks |
| ChatHistory.QuestionKeepsTurnsIff | kenny-server/kenny_server/chat.py:556-561 | a question makes two user messages adjacent exactly after one that is not all notes |
| ChatHistory.NoteJoinsNotesIff | kenny-server/kenny_server/chat.py:440-478 | a message of notes stays recognised under a further note exactly unless that note replaces a text in it |
| ChatHistory.NoteThenQuestion | kenny-server/kenny_server/chat.py:503-561 | after the model has spoken, a note and then a question make one user message that holds both in order |
| ChatHistory.NotePlaced | kenny-server/kenny_server/chat.py:535-545 | a note follows the user's last words, which are kept and marked, or the last user blocks, or is a message of its own; all else stays |
| ChatHistory.QuestionPlaced | kenny-server/kenny_server/chat.py:549-561 | a question joins the last message exactly when that is a user message of recorded notes alone; its text is marked and all else stays |
| ChatHistory.ReplayTools | kenny-server/kenny_server/chat.py:564-662 | the table of open calls gives every result the most recent call with its id that no result has used up |
| ChatHistory.ResultNamesItsCall | kenny-server/kenny_server/chat.py:564-662 | the first result with an id in the message after a call is replayed under that very call, and as run, failed or denied |
| ChatHistory.UncalledIsUnknown | kenny-server/kenny_server/chat.py:603 | a result that no call before it has the id of is shown under no known tool |

## Left out

- Time parsing and the truncation to whole seconds: instants are integers (seconds for availability, microseconds since a Monday for the schedules, opaque units elsewhere).
- Rounding (`online_pct`, the three decimals of a cell, whole-second totals) and the float guard of `buckets`: offsets are scaled by the number of cells, so a cell is an exact fraction; the guard changes no cell for fewer than a billion cells.
- `_spans`, `summarize` and `parse_days`: a filter, a cap and a range test.
- The first collection and the first session of a host are read without regard to the window and are parameters of `WindowReads`.
- The stores, HTTP, Discord, MCP, the model API and the WebSocket transport: a store is a field the methods reassign, what arrives is a parameter.
- Awaits inside a pass: a pass is one step. Evaluating one agent on demand while a summary is being written could stamp a notice just before the window moves past it; that interleaving is not modelled.
- The evaluation of a snapshot, the forecasts' own computation, the inventory changes, the overall roll-up row and the two-value legacy rows: results arrive as inputs, and a snapshot is assumed not to have a section named `hardware_forecast` or `disk_forecast`.
- A pass that stops between stamping and sending the notice of a missing host or of a forecast, which is then lost as well.
- A crash between moving the daily window and dispatching the summary, which loses that summary.
- Notification wording, title truncation, the 25-line cap of the daily list, that a disk finding and its forecast share a line, delivery, tickets, hooks and message tracking.
- Section statuses outside ok, posture, warn and crit: the source ranks any other word with ok.
- DailySummary.ListedIff: it follows a section driven by passes; a missing host and the hardware forecast, which stamp their own rows, enter through `AlertEngine.Engine.MaybeSendDaily` only.
- The hardware roll-up before a sweep, and a store whose sweep raises.
- Restore.RestoreIsCrashSafe: it assumes a marker written whole and no staging over an existing marker, both of which the source does not ensure; the lemmas about a truncated marker and a half-written copy show that they are needed.
- Restore.Disk.StageRestore: retrieving, checking and removing the temporary file appear only as whether the check passed.
- Restore.Disk.StageRestore: the pending and marker paths are assumed not to be folders; copying onto a folder would put the copy inside it.
- Symbolic links and other spellings of a path: a folder holds what its path begins, and a folder elsewhere is one entry with what is in it. Line breaks in the database path, and reordering of writes by the operating system.
- Regular expressions, base64, Ed25519, key files and JSON: parameters of the model (`Regex`, `Crypto`, decoded frames); the trimming of the server's signature belongs to the verification parameter.
- Enrolment, connecting, the shutdown signal, telemetry, heartbeat, log and response tasks: one event that they were started. A full outbound channel appears only as whether it still accepts the answer.
- Policy.CheckIff: the host test for agent updates is a parameter.
- The kill switch, consent prompts and the handlers behind the guard.
- LoginThrottle.LoginRateLimiter.Login: the password and code checks are a verdict; both clocks are parameters. The waiting time is not rounded to a header. Overlapping attempts are events of the run, not calls of the method.
- The Discord gateway, `_interactions` and the translation of events.
- ChatHistory.ReplayTools: only the tool entries of a replay; texts, notes, images and the read-only flag are left out.
- `parse_run_note` and `_neutralise`: functions given to the model, so that operator text never reads as a note is not proved here.
- The tool loop behind a turn: it may commit any messages that answer calls in the next message.
- Tray, services, installers, pages and the other agent and server modules.
