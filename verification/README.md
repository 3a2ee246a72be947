# Super-Herdr: bookkeeping and transfer protocols

This project models the state machines and byte protocols at the centre of Super-Herdr and proves
what they promise over every input and every run. Objects the program updates in place are classes
whose methods are proved against functions on values; what is promised about whole runs is proved
about those functions.

* **Inbox** (`Inbox`, `InboxIndex`, `InboxLaws`, `InboxRoutes`, `InboxOrder`, `InboxConservation`,
  `InboxCards`). `AgentCardIndex` rebuilds its cards incrementally, with ranks, history and a
  revision. From every index a run can reach, the card it publishes for an identity is offered
  exactly when the memoryless `resolve` finds a route, and names that route's pane. What a section
  shows is explained by the whole run: pinned first, then by the step a card last entered the
  section. A card is marked stale exactly while its target is not live.
* **Upload window** (`UploadWindow`, `UploadLaws`, `UploadTheorems`, `UploadOrder`, `UploadSender`).
  Streaming senders, other callers and the socket writer as interleaved atomic steps. The counter is
  exactly the bytes handed over and not yet subtracted, memory is bounded, no wakeup is lost,
  messages leave in the order they were handed over, and the writer ends only for a reason.
* **Attention** (`Attention`, `AttentionIndex`, `AttentionLaws`, `AttentionRuns`,
  `AttentionRestarts`, `AttentionMeaning`, `AttentionMirror`). What one federation pushes and what
  it says, the numbering of events over whole runs with the file that outlives each restart, and a
  client's mirror that converges whatever order events arrive in.
* **Screens** (`Screen`). A rendered row is the one canonical list of runs for what it shows, and a
  client that applies diffs holds a published screen after every delivery.
* **Transfers** (`Staging`, `FileSave`, `Download`). Attempts that are cut and resumed, and a save
  fed by a sender that paces itself by the save's credit.
* **Text** (`Glob`, `Quote`, `Listing`, and `TextLines`, `Tables`, `Toml`, `TomlEdit`, `TomlLaws`,
  `TomlPlace`). Escaping against a matcher, quoting against a lexer, framing under truncation, and
  an edit of a TOML text by running offsets.
* **Fleet and notifications** (`Fleet`, `FleetLaws`, `FleetReports`, `Notifications`,
  `NotificationRuns`). Drift, lockfiles and plans as fixpoints; the notification queue judged by its
  calls and answers alone.

`Base`, `Ordering` and `Federation` hold what the others share: options, whitespace, the order in
which ordered maps are walked, and the federation's own data.

## Where the code keeps less than it says

Each of these is stated as an exact condition.

* `set_notifications_enabled`: the last write wins, and is read back, exactly unless the first
  `[notifications]` header is the text's last line and lacks its newline. The inserted line then
  runs into the header (`TomlLaws.LastWriteWinsExactly`, `TomlLaws.WriteIsReadExactly`).
* `RemoteListing.truncated` is documented as saying whether there was more. For a directory it does
  so exactly when the directory does not hold five hundred entries, the listing fits 64 KiB and
  every name printed is UTF-8 (`Listing.List`, `Listing.UnreadableNameMisleads`). For a search it
  does so exactly when fewer than five hundred paths were found, they fit and can all be shown, or
  more than five hundred were and five hundred that can be shown arrive whole (`Listing.Search`).
* `FileSave` writes before it hashes. A save driven on after a write that failed part way puts in
  place a file its digest does not describe; what is saved is what was hashed exactly when no failed
  write left bytes behind (`FileSave.SavedIsAcceptedExactly`, `FileSave.RetriedWriteCorrupts`). The
  one caller gives up at the first failure, and is then in the good case
  (`FileSave.NoFailedWriteNoDebris`).
* Carrying out a plan settles it exactly when the lockfile gives each source one reference, if any
  target was reached, and no host reports a commit other than the reference it was given. So a plan
  for a tag is planned again, and so is a lockfile that names one source twice
  (`FleetLaws.CarryingOutSettles`, `FleetLaws.TagIsPlannedAgain`, `FleetLaws.SourceLockedTwice`).
* A host's own lockfile asks nothing of it exactly when each copy it pins is pinned to what its
  first copy from that source is at (`FleetLaws.OwnLockfileNeedsNothing`,
  `FleetLaws.SourceListedTwice`).
* A persisted attention index is read back exactly when it holds at most 4096 observations, which
  writing it does not check (`AttentionRuns.PersistenceKeeps`). A start goes on from nothing when
  the file is not read or not accepted, and a failed write, said to cost the next start its history
  and nothing else, leaves the older file; either way event ids can be given out again
  (`AttentionRestarts.CrowdRepeatsIds`, `AttentionRestarts.FailedWriteRepeatsIds`). Numbering goes
  on past every id given out exactly when the file is accepted and numbers past them, or none was
  given out (`AttentionRuns.RestartNumbersOnExactly`, `AttentionRuns.AlwaysPastExactly`,
  `AttentionRuns.IdsNeverReusedExactly`).
* The upload window bounds what streaming senders queue; what other callers paste is counted but not
  held back, so the queue is within that bound and the pasted bytes still outstanding
  (`UploadTheorems.MemoryBound`).
* A card's title is documented as the agent's name, else its pane's label, else its resource. The
  code puts the pane's agent before its label, and the model follows the code
  (`InboxCards.TitleMeans`).
* A comment in `project` retires a card only when a live target "says so"; the code also retires it
  when the target is live and has no snapshot. The model follows the code.

## Model

| member | source | states |
|---|---|---|
| `InboxRoutes.OfferedExactlyWhenRoutable` | src/agent_card.rs:293-457 | after projecting from any valid index, for every identity the published card exists and is actionable exactly when `resolve` succeeds on the same federation, and the route is then the card's own pane; ambiguous, stale and reused identities included |
| `InboxOrder.RunValid` | src/agent_card.rs:286-414 | every index reached by a run of projections is valid, so what is proved of valid indices holds at every reachable one |
| `InboxOrder.RankIsEntry` | src/agent_card.rs:372-391 | over every run, one rank is below another exactly when its card last entered its section at an earlier step, or at the same step with the smaller identity |
| `InboxOrder.SectionShownInOrder` | src/agent_card.rs:463-488 | any two cards of a published section are pinned first, then in the order they last entered it |
| `InboxOrder.NeverSwapped` | src/agent_card.rs:372-391 | two cards that stay in a section with the same pins keep their order, and an arrival goes behind every card already there with its pin |
| `InboxOrder.EntryGivesRank` | src/agent_card.rs:378-388 | entering earlier gives a smaller rank, by induction over the run |
| `InboxConservation.Conserved` | src/agent_card.rs:325-391 | each tracked identity is shown again, kept with nothing changed but that it is marked stale and taken off offer, retired, or dropped with its target, each exactly in its own case |
| `InboxCards.StaleExactly` | src/agent_card.rs:346-391 | over every run, a tracked card is marked stale exactly when its target is not live |
| `InboxCards.ShownStaleExactly` | src/agent_card.rs:325-413 | of the cards published, those with a pane are marked stale exactly when their target is not live, and those without are history: gone, recent, never stale or offered |
| `InboxCards.KeptIsMarked` | src/agent_card.rs:360-366 | a kept card changes in nothing but being stale and off offer |
| `InboxCards.ShownWhere` | src/agent_card.rs:393-413 | each section shows exactly the cards filed in it, and history follows the recent |
| `InboxCards.RetiredKeeps` | src/agent_card.rs:490-502 | a retired card is gone, recent, without pane or offer, and still says everything else it said |
| `InboxCards.SectionMeans` | src/agent_card.rs:525-543 | a card is in the section of its phase unless muted or snoozed, and its activity is the phase either way |
| `InboxCards.HistoryMeans` | src/agent_card.rs:598-607 | a card is unread exactly when the history holds an unread event of its pane, and changed last when the newest of them happened |
| `InboxCards.TitleMeans` | src/agent_card.rs:564-572 | a card is titled by the agent's name, else the pane's agent, else its label, else its resource, within 128 characters |
| `InboxCards.PlaceMeans` | src/agent_card.rs:544-596 | a card names the workspace and tab of its pane by their labels where they have them |
| `InboxCards.AliasMeans` | src/agent_card.rs:573-611 | an alias is shown while the title is the one it was given under and is otherwise suspended; marks and favourites are the identity's own |
| `InboxConservation.HistoryExactly` | src/agent_card.rs:368-370 | history is the retired cards, newest first, in front of what was there, cut to 64 |
| `InboxConservation.ProjectedTwice` | src/agent_card.rs:289-293 | projecting the same inputs twice gives the same index, inbox and revision |
| `InboxConservation.EqualRevisionsShowTheSame` | src/agent_card.rs:166-169 | over every run, two steps have one revision exactly when the same inbox was published at both and at every step between |
| `InboxConservation.RevisionsCountChanges` | src/agent_card.rs:398-406 | over every run, the revision has moved by exactly how often the published inbox changed |
| `InboxConservation.RetiredCardsAre` | src/agent_card.rs:330-345 | the cards retired are those of exactly the vanished identities, gone and without a pane |
| `InboxLaws.ProjectedValid` | src/agent_card.rs:293-414 | every projection keeps ranks distinct and below the next one, cards filed under their own identity and section, and history at most 64 unofferable cards |
| `InboxLaws.TrackedAfter` | src/agent_card.rs:346-391 | exactly which identities are tracked afterwards, with which card, section and rank; a card that was not seen is the old one, stale and off offer |
| `InboxLaws.RankAfter` | src/agent_card.rs:372-391 | a rank is kept by whoever stays in a section and fresh for whoever enters one |
| `InboxLaws.AdmitAllExactly` | src/agent_card.rs:372-391 | taking in the cards seen touches exactly them and keeps a rank exactly when the section is unchanged |
| `InboxLaws.JoinersInOrder` | src/agent_card.rs:372-391 | of two cards that join in one projection the smaller identity is ranked first |
| `InboxRoutes.ResolveMeans` | src/agent_card.rs:423-457 | resolving succeeds exactly when the target is live and exactly one agent answers, in a pane the snapshot lists; the route is that pane under the current generation |
| `InboxRoutes.ResolveRefuses` | src/agent_card.rs:423-457 | each refusal, exactly when its own reason holds |
| `InboxRoutes.CardForShown` | src/agent_card.rs:175-187 | the first card of the inbox for an identity is its tracked card, and only failing that one from history |
| `InboxIndex.AgentCardIndex.Project` | src/agent_card.rs:293-414 | the whole new state of the index is the projection of its old state |
| `InboxIndex.AgentCardIndex.Collect` | src/agent_card.rs:299-323 | the two loops and the withholding give each identity the card of its last pane, offered only when no other pane answers to it |
| `InboxIndex.WithheldIsSeen` | src/agent_card.rs:299-323 | gathering pane by pane in map order amounts to that map of cards |
| `InboxIndex.AgentCardIndex.Sweep` | src/agent_card.rs:330-370 | what is retained, staled and retired, entry by entry |
| `InboxIndex.AgentCardIndex.TakeIn` | src/agent_card.rs:372-391 | the loop over the cards seen admits each in identity order |
| `InboxIndex.AgentCardIndex.Announce` | src/agent_card.rs:393-413 | publishes the three sections and counts the change if there is one |
| `Inbox.SectionIds` | src/agent_card.rs:463-488 | the order of a section is total and lists exactly its cards |
| `Federation.AgentKeyIdentifies` | src/agent_card.rs:634-665 | two agents share an identity exactly when they are on one session and report the same agent session, or report none and occupy the same pane |
| `Federation.IdLessMeans` | src/model.rs:42-50 | ids are ordered by target, then session, then what they name |
| `UploadTheorems.NoLostWakeup` | src/client.rs:516-531 | in every reachable state a sender asleep and not notified faces a full open window, or the writer is between its store and its notify |
| `UploadOrder.WriterEndsExactly` | src/client.rs:195-213 | over every run, the writer is past its loop or about to leave it exactly when a write failed or every sender was gone |
| `UploadOrder.NothingWrittenAfterFailure` | src/client.rs:202-206 | after a write that failed nothing is received or written |
| `UploadOrder.ClosedOnlyAtItsEnd` | src/client.rs:207-210 | no sender finds the connection closed unless a write failed or every sender was gone |
| `UploadOrder.WrittenInOrder` | src/client.rs:195-206 | first in, first out: what was written, what the writer holds and what waits are what was handed over, in that order |
| `UploadOrder.NothingLostWithoutFailure` | src/client.rs:195-213 | over every run in which no write fails, nothing handed over is lost |
| `UploadOrder.StreamsAttest` | src/client.rs:466-508 | in every interleaving a stream is chunks within the offer and then exactly one finish or cancel, and a finish only at exactly the offered length |
| `UploadOrder.StepCancels` | src/client.rs:466-531 | a stream is given up at exactly these steps: a read that fails, a file that shrank or grew, a connection found closed |
| `UploadOrder.StepFinishes` | src/client.rs:497-507 | a stream finishes exactly when its file has been read to its end at the offered length |
| `UploadOrder.CancelledForAReason` | src/client.rs:516-531 | a stream cancelled over a closed connection was cancelled after a write failed or every sender was gone |
| `UploadTheorems.DrainingWakesEveryone` | src/client.rs:59-95 | from every reachable state the writer's steps end within a bound read off the state, and where they end no sender is asleep unnotified, and nothing is counted or the connection reads as closed |
| `UploadTheorems.MemoryBound` | src/client.rs:59-95 | with k streaming senders their queued bytes stay below 4 MiB and k chunks of 512 KiB, and the rest of the queue is exactly what was pasted and has not been taken off again |
| `UploadTheorems.SubtractionNeverUnderflows` | src/client.rs:84-90 | the writer never subtracts more than is counted |
| `UploadTheorems.StuckCanDrain` | src/client.rs:195-213 | while a sender is stuck the writer has a step to take |
| `UploadTheorems.DrainingTires` | src/client.rs:195-213 | every such step leaves less to do |
| `UploadLaws.RunKeeps` | src/client.rs:59-95 | counting, lifecycle, sizes and wakeups hold in every state of every interleaving; why the writer ends is `UploadOrder.WriterEndsExactly` |
| `UploadLaws.StepKeeps` | src/client.rs:195-213 | every atomic step of senders, callers and writer keeps the counting, lifecycle, sizes and wakeups |
| `UploadLaws.StepConserves` | src/client.rs:693-696 | every step keeps the counter equal to the bytes counted and not yet subtracted |
| `UploadSender.SendFile` | src/client.rs:456-508 | the messages of one streamed file are those the specification lists, whatever each read returns |
| `UploadSender.StreamAttests` | src/client.rs:445-508 | chunks within the offer, then one finish or one cancel; finish exactly when the file was read to its end at the offered length, and the digest is of those chunks |
| `AttentionMirror.DeliveriesConverge` | src/attention.rs:199-215 | from a sorted mirror, any two deliveries of the same events, in any order with any repeats, reach the same history: the 256 newest of everything told |
| `AttentionMirror.ApplyKeepsNewest` | src/attention.rs:202-215 | one application keeps the mirror the newest part of what it was told |
| `AttentionMirror.ReplacesExactly` | src/attention.rs:203-206 | a second copy of an event takes the place of the first and nothing else moves |
| `AttentionMirror.NewestUnique` | src/attention.rs:202-215 | there is only one such list |
| `AttentionMirror.MirrorFollowsDaemon` | src/attention.rs:180-276 | a mirror fed each event as it is pushed holds exactly the daemon's events |
| `AttentionMirror.MirrorSeeds` | src/attention.rs:186-197 | a seeded mirror is valid, and knows the daemon's next number exactly when the newest event is still held |
| `AttentionMirror.NextSettles` | src/attention.rs:207 | a mirror's next number is one past everything it was told |
| `AttentionRuns.IdsNeverReusedExactly` | src/attention.rs:259-276 | over every run of observing, marking, clearing, saving and restarting, no id is given out twice exactly when no events are created after a restart that found ids given out and read no accepted file past them, until another restart does; that holds whenever each restart comes before any event or reads an accepted file with no event missing |
| `AttentionRuns.RestartNumbersOnExactly` | src/daemon/server.rs:1063-1066 | after a restart the next id is above every id given out exactly when the file is read, accepted and numbers past them, or nothing was given out |
| `AttentionRuns.AlwaysPastExactly` | src/daemon/server.rs:1063-1066 | over every run, the next id stays above every id given out exactly when each restart comes before any event or reads an accepted file written since the last event |
| `AttentionRuns.GivenExactly` | src/attention.rs:259-262 | the ids given out by a run are exactly those below the highest number any of its indices stood at |
| `AttentionRestarts.CrowdRepeatsIds` | src/attention.rs:373-376 | with 4097 observations written down and refused on the next start, id 0 is given out a second time |
| `AttentionRestarts.RefusedFileRepeatsIds` | src/attention.rs:431-482 | so it is for every pair of federations whose observations are too many and whose difference is an event |
| `AttentionRestarts.FailedWriteRepeatsIds` | src/daemon/server.rs:3330-3336 | and for every pair whose difference is an event, when the one write in between fails |
| `AttentionRuns.EventsHaveOrigins` | src/attention.rs:231-276 | every event in memory or on disk was created by one step of the run, and has changed since only in whether it was seen |
| `AttentionRuns.RunKeeps` | src/attention.rs:80-277 | every index of a run, in memory or on disk, whatever files were lost or refused, is sorted, capped at 256 and numbered below its next id |
| `AttentionRuns.StepKeeps` | src/attention.rs:81-276 | each step other than a restart keeps the index well formed, numbers on from where it was and invents nothing |
| `AttentionRuns.PersistenceKeeps` | src/attention.rs:347-403 | an index is read back as it was written exactly when it holds at most 4096 observations |
| `AttentionMeaning.RestoreAccepts` | src/attention.rs:367-387 | a file is accepted exactly when its version and counts are right and no pane is observed twice |
| `AttentionMeaning.RestoreMeans` | src/attention.rs:377-402 | what is read from it is every observation and event in it, numbering on past them all |
| `AttentionLaws.EmittedExactly` | src/attention.rs:134-166 | one observation pushes at most one event per pane, exactly on a phase change, a readiness rise or absence from a reporting session; of which kind is `AttentionMeaning.EmittedSays` |
| `AttentionMeaning.EmittedSays` | src/attention.rs:279-299 | what is pushed of a pane that is gone is what was last seen of it, as a disappearance; of one still there what is seen now, as needing attention, working, completed or changed exactly as its phases call for |
| `AttentionMeaning.CreatedSays` | src/attention.rs:259-276 | every event a run creates is unread, describes the agent seen in its pane, and is of that kind |
| `AttentionMeaning.EmittedInOrder` | src/attention.rs:134-166 | changes are pushed before disappearances, each in the order of the panes' ids |
| `AttentionMeaning.PhaseMeans` | src/attention.rs:301-322 | the phase of an agent, word by word |
| `AttentionMeaning.LowerMeans` | src/attention.rs:304 | status words are compared with their twenty-six capitals folded and nothing else |
| `AttentionMeaning.BoundedMeans` | src/attention.rs:333-345 | metadata keeps as many characters as fit, each as it was or a space for a control character |
| `AttentionMeaning.CurrentMeans` | src/attention.rs:83-130 | what is current is what live targets with a snapshot list, as the snapshot has it |
| `AttentionMeaning.SightingMeans` | src/attention.rs:95-130 | the name and the status an agent is seen under, by what it and its pane report |
| `AttentionMeaning.WorkspaceMeans` | src/attention.rs:105-115 | the workspace an agent is seen in, by its label where it has one |
| `AttentionMeaning.SeenMeans` | src/attention.rs:231-251 | marking a pane, or everything, leaves each event in place and changes only whether it was seen |
| `AttentionMeaning.ClearMeans` | src/attention.rs:253-257 | clearing leaves exactly the unread events |
| `AttentionMeaning.MarkingKeepsTheRest` | src/attention.rs:231-257 | neither touches what is remembered, the numbering or the file |
| `AttentionLaws.SilentSessionsKept` | src/attention.rs:85-92 | a known session that cannot be asked pushes nothing and keeps its baselines |
| `AttentionLaws.ObservedTwice` | src/attention.rs:81-178 | observing the same federation again pushes nothing and changes nothing |
| `AttentionLaws.PushedKeepsNewest` | src/attention.rs:259-276 | pushing with the cap each time keeps the newest of all events minted |
| `AttentionIndex.AttentionIndex.Observe` | src/attention.rs:81-178 | the whole new state, and true exactly when what is remembered changed; what is pushed says what `AttentionMeaning.EmittedSays` states |
| `AttentionIndex.AttentionIndex.Gather` | src/attention.rs:82-132 | what is current: one sighting for each agent a reporting session lists |
| `AttentionIndex.AttentionIndex.ObservePresent` | src/attention.rs:134-151 | pushes and remembers exactly what differs, pane by pane, in the kinds of `AttentionMeaning.EmittedSays` |
| `AttentionIndex.AttentionIndex.RemoveVanished` | src/attention.rs:153-166 | one disappearance for each pane a reporting session stopped listing |
| `AttentionIndex.ObservedInSteps` | src/attention.rs:134-177 | three passes over the panes come to one observation |
| `AttentionIndex.AttentionIndex.PushEvent` | src/attention.rs:259-276 | one event under the next id, keeping the newest 256 |
| `AttentionIndex.AttentionIndex.Apply` | src/attention.rs:202-215 | the whole new state of a mirror, and whether the event was new to it |
| `AttentionIndex.AttentionIndex.MarkSeen` | src/attention.rs:231-251 | the loop marks exactly the events of the pane, or all, and says whether any was unread |
| `AttentionIndex.AttentionIndex.ClearSeen` | src/attention.rs:253-257 | the unread events stay, in order, and the answer says whether any other was dropped |
| `Attention.Listed` | src/attention.rs:83-94 | the panes current after a federation are those a live target with a snapshot lists |
| `Attention.NextAfter` | src/attention.rs:388-395 | the next id after a restart is one past the highest event, or the stored one when that is higher |
| `Screen.HoldsOnlyPublished` | src/screen.rs:148-173 | however diffs are dropped, repeated or reordered, the client holds one of the published screens after every delivery |
| `Screen.DeliveryIsExact` | src/screen.rs:154-173 | an accepted diff gives exactly its target, a refused one changes nothing, and refusal is exactly a different base |
| `Screen.BetweenReaches` | src/screen.rs:238-256 | a diff takes a holder of exactly its base to exactly its target |
| `Screen.BetweenExactly` | src/screen.rs:238-256 | there is a diff exactly between screens of one size, and it carries exactly the rows that differ, in order |
| `Screen.ResizeChangesAll` | src/screen.rs:179-182 | across a resize every row counts as changed |
| `Screen.MalformedIsRefused` | src/screen.rs:154-173 | a diff that names a row the screen lacks is refused and leaves the rows before it overwritten |
| `Screen.RenderRow` | src/screen.rs:259-318 | the runs are canonical and expand to what the cells show without the longest suffix of plain blanks |
| `Screen.LookMeans` | src/screen.rs:270-289 | the colours and marks a cell is shown with, inverted or not |
| `Screen.GlyphsMeans` | src/screen.rs:262-294 | what each column adds to its row |
| `Screen.CanonicalUnique` | src/screen.rs:295-301 | two canonical rows that show the same are the same runs |
| `Screen.Trim` | src/screen.rs:305-316 | dropping blank runs and trimming the last keeps the row canonical and drops exactly the blanks |
| `Screen.Draw` | src/screen.rs:295-301 | merging or adding a run keeps the row canonical and appends exactly the cell's text |
| `Screen.HeldScreen.Apply` | src/screen.rs:154-173 | overwriting rows in place gives the specified screen and answer |
| `Screen.Differing` | src/screen.rs:183-189 | the rows reported are exactly those that differ |
| `Staging.AttemptIsExact` | src/clipboard.rs:1089-1117 | one attempt keeps the staged file a beginning of the content and never less of it than there was; complete exactly when it is the content, interrupted with exactly its length |
| `Staging.AttemptKeepsBytes` | src/clipboard.rs:1532-1543 | whatever the plan and the source, what was copied stays, unless something failed and nothing was ever stored or more came than was declared, which is exactly when a failure is reported |
| `Staging.CutExactly` | src/clipboard.rs:1490-1521 | a copy is cut exactly when it comes to a read that fails, or to a failing write of something read |
| `Staging.StagedIsAlwaysPrefix` | src/clipboard.rs:1475-1543 | over any number of attempts, each cut anywhere, what is staged is a beginning of the content |
| `Staging.CleanAttemptCompletes` | src/clipboard.rs:59-75 | from any such file, one attempt that meets no failure completes the transfer with the content's digest |
| `Staging.CopiedIsPrefix` | src/clipboard.rs:1490-1521 | the copy loop never writes past the declared length nor anything but the content |
| `Staging.HostFile.Attempt` | src/clipboard.rs:1475-1543 | the loop, the receipt and the judgement give the specified file and outcome |
| `Staging.FileReceipt` | src/clipboard.rs:2128-2145 | the receipt counts and hashes exactly the file, whatever each read returns |
| `Download.FinishedRunSavesTheContent` | src/daemon/server.rs:550-611 | a run of sender and save that can go no further has put exactly the offered content in place, exactly when the offer attests to no digest or to the content's own |
| `Download.NeverStalls` | src/file_save.rs:125-150 | a state short of its length always has a next step, and no run is longer than three steps a byte and one |
| `Download.RunKeeps` | src/file_save.rs:125-150 | credit, chunks and grants on the way add up to `outstanding`, at most 8, in every state of every run |
| `Download.StepKeeps` | src/daemon/server.rs:577-606 | each step of sender or save keeps that and uses up work |
| `FileSave.SavedExactlyWhenWhole` | src/file_save.rs:156-182 | a save succeeds exactly when the accepted chunks have the declared length and the attested digest, if any, and the file can be put in place |
| `FileSave.SavedIsAcceptedExactly` | src/file_save.rs:134-150 | the saved file is the accepted chunks exactly when no failed write left bytes behind |
| `FileSave.DebrisExactly` | src/file_save.rs:139-142 | bytes are left behind exactly when some chunk within the offer was written in part |
| `FileSave.NoFailedWriteNoDebris` | src/file_save.rs:134-150 | a save that is never driven past a failed write holds exactly what it accepted |
| `FileSave.RetriedWriteCorrupts` | src/file_save.rs:139-142 | a save driven past a failed write can save a file its digest does not describe |
| `FileSave.SaveIsFaithful` | src/file_save.rs:134-150 | over every history, what is counted and hashed is what was accepted, within the offer and the window |
| `FileSave.NeverStarved` | src/file_save.rs:127-150 | once opened, a save short of its length is owed at least one chunk |
| `FileSave.FileSave.Chunk` | src/file_save.rs:134-150 | the whole new state and the answer, for a refused, a failed and an accepted chunk |
| `FileSave.ChunkAnswersExactly` | src/file_save.rs:134-150 | which chunks are refused and which not written, and when eight more are asked for |
| `FileSave.RefusedInOrder` | src/file_save.rs:156-182 | why a save is not put in place: the first of its checks that fails |
| `Glob.LiteralSearchFinds` | src/remote_files.rs:170-176 | the pattern of a literal search matches a name exactly when the query occurs in it contiguously, whatever bracket expressions mean |
| `Glob.SearchPattern` | src/remote_files.rs:172-176 | the pattern sent is the query, or one that finds exactly the names containing it |
| `Glob.EscapedConsumes` | src/remote_files.rs:234-243 | an escaped query matches itself and leaves the rest of the pattern to the rest of the name |
| `Glob.EscapedMatchesOnlyItself` | src/remote_files.rs:233-243 | as a pattern of its own it matches the query and no other name |
| `Glob.StarSkips` | src/remote_files.rs:175 | a leading star matches exactly any number of characters |
| `Glob.EscapeGlob` | src/remote_files.rs:234-243 | the loop builds the escaped query |
| `Quote.CommandReadsBack` | src/transport.rs:885-891 | the shell's quoting rules read a rendered command back as exactly the executable and its arguments, whatever characters they hold |
| `Quote.ValueReadsBack` | src/transport.rs:893-895 | a quoted value is read as exactly that value |
| `Listing.List` | src/remote_files.rs:127-148 | a directory's answer is exactly the readable entries that arrived whole, and its truncation flag is right exactly when the directory does not hold five hundred entries, the listing fits 64 KiB and every name printed is UTF-8 |
| `Listing.UnreadableNameMisleads` | src/remote_files.rs:249-251 | a directory whose one name is not UTF-8 is shown as empty and complete |
| `Listing.Search` | src/remote_files.rs:176-192 | a search's answer is, in order of name, the first 500 of the paths that arrived whole and can be shown; its flag is right exactly when fewer than 500 were found and all arrive and can be shown, or more than 500 were found and 500 of them do |
| `Listing.ByNameSorts` | src/remote_files.rs:186 | sorting by name keeps the entries and leaves none before a smaller one |
| `Listing.PrefixPairsWholeRecords` | src/remote_files.rs:245-264 | from any byte prefix the pairs read are exactly the readable records wholly inside it |
| `Listing.PrefixFindsWholePaths` | src/remote_files.rs:266-284 | from any byte prefix of a search answer the fields read are exactly the whole paths |
| `Listing.SplitReadsTerminatedFields` | src/remote_files.rs:286-299 | cutting at the last terminator and splitting is reading fields as their terminators arrive |
| `Listing.CutRecordPairsNothing` | src/remote_files.rs:286-290 | a record that is cut pairs nothing |
| `Listing.ParseEntries` | src/remote_files.rs:245-264 | the first 500 pairs, and whether there were as many |
| `Listing.ParsePaths` | src/remote_files.rs:266-284 | the first 500 readable relative paths, and whether there were as many |
| `Listing.RelativeMeans` | src/remote_files.rs:271-272 | a path is shown without its leading `./` |
| `Listing.FoundComeFrom` | src/remote_files.rs:266-284 | the entries of a search are exactly the files its readable paths name |
| `Listing.KindsSpelled` | src/remote_files.rs:252-256 | `d` is a directory, `f` a file, and anything else neither |
| `TomlLaws.LastWriteWinsExactly` | src/config.rs:999-1069 | setting twice is setting the second value exactly unless the first notifications header is an unterminated last line |
| `TomlLaws.WriteIsReadExactly` | src/config.rs:999-1069 | what is set is read back under exactly the same condition; in letters, `TomlPlace.OnIsOn` |
| `TomlPlace.OnIsOn` | src/config.rs:999-1000 | set to true it is read back as `true`, and to false as `false`, exactly unless the text is torn |
| `TomlPlace.SetRewrites` | src/config.rs:1014-1043 | where the first notifications table assigns the flag, only the first line that does is rewritten, in its value alone |
| `TomlPlace.SetInserts` | src/config.rs:1045-1052 | where it does not, `enabled = true` or `enabled = false` is added right under its header |
| `TomlPlace.SetAdds` | src/config.rs:1055-1068 | where there is none, the table is added in full before the first `[[targets]]`, or at the end, after a newline if one is missing |
| `TomlPlace.EveryText` | src/config.rs:999-1069 | every text is one of the three |
| `TomlPlace.HeaderMeans` | src/config.rs:1075-1077 | a header is a line that, trimmed, stands in brackets |
| `TomlLaws.OnlyTheValueChanges` | src/config.rs:1027-1069 | everything but the old value, or nothing but an added value, line or table, is kept byte for byte |
| `TomlLaws.TornOnce` | src/config.rs:1045-1052 | in that one shape the edit leaves a text without a notifications table |
| `TomlLaws.HeaderAloneIsTorn` | src/config.rs:1045-1052 | `[notifications]` with no newline after it has that shape |
| `TomlEdit.SetNotificationsEnabled` | src/config.rs:999-1069 | the edit by running offsets gives the text whose lines are edited |
| `TomlEdit.TableHeaders` | src/config.rs:1071-1082 | every table header with the offset it begins at |
| `TomlEdit.UpdateLine` | src/config.rs:1023-1038 | the line with its value replaced between its own spaces and its comment |
| `TomlEdit.EditTable` | src/config.rs:1007-1053 | within a table that is there, the first assignment is replaced or a line is added under the header |
| `TomlEdit.AddTable` | src/config.rs:1055-1068 | without one, the table is added before the first target or at the end |
| `Tables.FindTable` | src/config.rs:1002-1012 | the first header with a title, where it begins and where the next one does |
| `Tables.CollectHeaders` | src/config.rs:1071-1082 | walking lines with an offset lists each header at the offset it stands at |
| `Toml.EditedTwice` | src/config.rs:999-1069 | on the lines of any other text an edit leaves proper lines and a second edit replaces the first |
| `Toml.NewRightTwice` | src/config.rs:1027-1037 | the value just written is found again and only it is replaced |
| `Toml.KeyIsBeforeEquals` | src/config.rs:1016-1020 | a line assigns `enabled` exactly when that is the trimmed text before its first equals sign |
| `TextLines.LinesOfText` | src/config.rs:1074 | cutting a text at its newlines gives lines that join to it |
| `TextLines.LinesOfConcat` | src/config.rs:1015 | and is the only way to cut it so |
| `FleetLaws.NoDriftMeansAgreement` | src/plugin_fleet.rs:203-275 | no drift exactly when nothing is unsourced and every plugin held anywhere is on every host that answered, enabled, in one version and no two known commits |
| `FleetLaws.ReportIsTrue` | src/plugin_fleet.rs:203-275 | every finding reported is true of the hosts: exactly which hold or lack a plugin, report which version or commit, or have it off; or a plugin without a source |
| `FleetReports.SourceDriftComplete` | src/plugin_fleet.rs:211-264 | of one plugin, a host without it, two versions, two commits of one version and a host that has it off are each reported exactly when they are there |
| `FleetReports.SourceDriftInOrder` | src/plugin_fleet.rs:211-264 | each at most once, in that order |
| `FleetReports.ReportIsComplete` | src/plugin_fleet.rs:203-275 | whatever is found of a plugin is in the report, and so is every plugin without a source |
| `FleetReports.ComparedIsFound` | src/plugin_fleet.rs:208-212 | and the report goes plugin by plugin in the order of their sources |
| `FleetLaws.AgreementIsEachPlugin` | src/plugin_fleet.rs:186-202 | with sources distinct on each host, that is agreement plugin by plugin |
| `FleetLaws.FindingsAreTrue` | src/plugin_fleet.rs:211-264 | what is said of one plugin lists exactly the hosts it is true of |
| `FleetLaws.TallyMeans` | src/plugin_fleet.rs:231-247 | versions and commits are tallied by exactly the hosts that report them |
| `FleetLaws.SourceDriftMeans` | src/plugin_fleet.rs:211-264 | nothing is said of one plugin exactly when every host holds the same enabled copy |
| `FleetLaws.EmptyPlanMeansHeld` | src/plugin_fleet.rs:304-350 | a plan is empty exactly when every reached target holds everything locked |
| `FleetLaws.PlanMeans` | src/plugin_fleet.rs:310-350 | the steps of a plan are exactly those for what reached targets do not hold |
| `FleetReports.StepMeans` | src/plugin_fleet.rs:325-347 | a step installs where nothing from its source is held and otherwise updates the first copy; its command, letter by letter |
| `FleetReports.PlanAppends` | src/plugin_fleet.rs:310-350 | a plan goes target by target in the order named |
| `FleetReports.StepsAppend` | src/plugin_fleet.rs:318-347 | and through the lockfile's order on each |
| `FleetReports.LockfileMeans` | src/plugin_fleet.rs:278-302 | a lockfile holds exactly a host's plugins with a source, by their commit or failing that by what was asked for |
| `FleetReports.PinnedAppends` | src/plugin_fleet.rs:284-301 | in the order the host lists them |
| `FleetLaws.OwnLockfileNeedsNothing` | src/plugin_fleet.rs:282-302 | a host's own lockfile asks nothing of it exactly when every copy it pins is pinned to what the host's first copy from that source is at |
| `FleetLaws.DistinctIsPinnedAsFirst` | src/plugin_fleet.rs:282-302 | which is so of every host that lists no source twice |
| `FleetLaws.SourceListedTwice` | src/plugin_fleet.rs:312-327 | and is not so of a host with two copies from one source asked for by two references |
| `FleetLaws.CarryingOutSettles` | src/plugin_fleet.rs:304-350 | whatever the lockfile, a plan carried out leaves nothing to plan exactly when the lockfile gives each source one reference, or no target was reached, and no host given a command reports another commit than the reference |
| `FleetLaws.SourceLockedTwice` | src/plugin_fleet.rs:304-350 | a lockfile that gives one source two references is planned again, whatever the host reports |
| `FleetLaws.TagIsPlannedAgain` | src/plugin_fleet.rs:304-350 | a lockfile that names a tag, on a host that reports the tag's commit, is planned again |
| `FleetLaws.AfterSteps` | src/plugin_fleet.rs:336-347 | what a target holds from a source after a plan's commands |
| `Fleet.FindDrift` | src/plugin_fleet.rs:208-275 | the loops report the drift of the grouped inventory, in order |
| `Fleet.BySource` | src/plugin_fleet.rs:186-202 | every source held anywhere, with exactly the hosts that hold it and the last copy each lists |
| `Fleet.CompareCopies` | src/plugin_fleet.rs:211-264 | what is missing, differs or is off for one plugin |
| `Fleet.Plan` | src/plugin_fleet.rs:310-350 | the nested loops list the plan's steps |
| `NotificationRuns.DeliveredExactlyWhenDue` | src/notifications.rs:80-105 | over every run, a delivery is made exactly when notifications are on, something waits, 500 ms have passed since the first of it and the interval in force since the last delivery; it reports all that waits and the latest |
| `NotificationRuns.UpdatesConserved` | src/notifications.rs:54-111 | accepted updates are those delivered, waiting or thrown away by a new configuration |
| `NotificationRuns.AcceptedExactly` | src/notifications.rs:63-78 | an event is accepted exactly when its id is past every id offered before and the configuration in force wants its kind |
| `NotificationRuns.WantsMeans` | src/notifications.rs:114-122 | which switch decides for which kind |
| `NotificationRuns.ReconfiguredExactly` | src/notifications.rs:54-61 | a configuration is taken as new exactly when it differs from the one in force |
| `NotificationRuns.NoIdAcceptedTwice` | src/notifications.rs:64-67 | accepted ids strictly increase over every run |
| `NotificationRuns.PendingAreLatest` | src/notifications.rs:71-76 | what is pending is the last sixteen accepted since anything was cleared, in order |
| `NotificationRuns.QueueIsFaithful` | src/notifications.rs:26-111 | the queue's fields are what its history of calls and answers says |
| `Notifications.NotificationQueue.Enqueue` | src/notifications.rs:63-78 | the whole new state and whether the event was accepted |
| `Notifications.NotificationQueue.TakeReady` | src/notifications.rs:80-105 | the whole new state and the delivery, if one is due |

## Left out

- Sockets, SSH, child processes, files, permissions and the clock: what a read, a write or a clock answers is a parameter. Directory entries, the paths a search finds, cell grids and decoded messages are given.
- SHA-256 is an arbitrary function of the bytes absorbed; UTF-8 validity is an arbitrary predicate.
- InboxIndex.AgentCardIndex.Project: ranks and the revision are unbounded, so saturation at the top of a 64-bit counter is not modelled; each snapshot is taken to list only agents qualified by its own target's key.
- AttentionIndex.AttentionIndex.PushEvent: event ids are unbounded; the timestamp is a function of the id.
- AttentionRuns.RunKeeps: whether a write takes and whether a file can be read at all (its size limit, its encoding, the system) are parameters of the save and restart steps; the version, the counts and the distinctness that decide acceptance are modelled.
- Federation.AgentKeyIdentifies: the session reference is taken to be free of the separator, which the code refuses in a reported session.
- Aliases, marks and quiet times enter a card as given functions of its agent; the alias and mark stores themselves are easy map facts.
- UploadLaws.StepKeeps: the writer ends by a failed write or a closed channel. Dropping the client aborts it without closing the window, which no run here contains.
- Message encoding in the writer always succeeds here; a message that cannot be encoded is only subtracted.
- Staging.AttemptIsExact: the source continues with the content from the host's own count, or stops early, or runs on past the end; a source that lies is not judged by this code but by the digest check elsewhere.
- Download.RunKeeps: no read or write fails in the run; the program ends the transfer at the first such failure, and what a save then holds is covered by `FileSave.SaveIsFaithful`.
- Quote.CommandReadsBack: line reading, aliases and the encoding of characters are outside the lexer, which refuses any unquoted character a shell might act on.
- Glob.LiteralSearchFinds: the search tool's own treatment of paths and case is outside the two sections modelled.
- Toml.EditedTwice: offsets count characters rather than bytes, and keys inside multi-line strings are read as the code reads them.
- FleetLaws.CarryingOutSettles: running an install command is modelled as one copy that replaces the first from its source or is added.
- Notification titles and bodies, the desktop and device backends, terminals' own parsing, configuration validation, pairing, push signing, the terminal and web frontends: branch by branch facts.
- `permitted_root`, `checked_relative`, the listing and search scripts beyond what they print, and the reader helpers of the clipboard: easy string facts.
