# CCodex: one history over two backends, modelled and proved in Dafny

CCodex is a gateway that shows Claude Code transcripts and stock Codex threads as one history. Much of it computes one
thing in two ways: paged and whole, live and replayed, read on and read again, flat and nested. This project models both
ways as the program has them and proves when they agree: for all inputs, over all runs, and where they do not always
agree, exactly when they do.

Ids are opaque (`Basics.Id`): a backend's own, or one of the forms the gateway derives from another id, which are kept
apart by that form. JSON parsing is any function from a line's bytes to a record, nothing, or the start of a line still
being written. Stock is an abstract paged list. Clocks, process tables and signals are oracles. A method models code that
changes things step by step; the function in its contract is what the lemmas beside it are about.

| modules | what they model |
|---|---|
| `Pagination`, `Items` | anchor cursors, pages, and one turn's items paged without the rest of its thread |
| `Segments`, `Stitching`, `StitchedPaging`, `StitchedItems`, `ForkRevert` | a thread that switched provider, as one list |
| `LineageTable`, `MetaStore` | who owns which backend, over every run of switches, forks, reverts and deletes |
| `LiveTurns`, `Projector`, `Runs`, `LiveHistory` | the live stream and the history projector split one run into turns: the same ones exactly until an event parts them |
| `TurnTrace`, `Session` | the live session's turn machine, and what every trace it tells keeps |
| `Relink`, `BranchWalk`, `Siblings`, `WindowWalk`, `SelectHistory` | the transcript graph: compactions, the branch walk, whole responses, windows, and what a thread's history shows |
| `Lines`, `Windows`, `RecordReader`, `Summary`, `Subagents`, `Refresh` | reading transcripts in parts, and their summaries |
| `Catalog`, `Sections`, `Sorting` | the merged thread list, a section's manual order, and the stable sort that it and the responses' blocks are put in order with |
| `Dots`, `LaunchConfig`, `Semver`, `Ownership` | dotted overrides, version order, and fenced signalling |

## What was found

Where the program does not keep a property on all inputs, the project has a concrete input and the exact condition.

- Deleting a thread whose lineage has one segment is forwarded to its backend, also when a fork still lists that backend
  (`LineageTable.SingleDeleteLosesFork`, reached by a switch, a fork and a revert). Every other step keeps every listed
  backend (`LineageTable.StepKeeps`).
- Reverting in a segment that a fork shares takes the turns from the fork's history too (`ForkRevert.ForkLosesTurn`),
  exactly when its cut is not before them (`ForkRevert.SharedRevert`). A revert that drops a segment shows the turns past
  the new last segment's cut again (`ForkRevert.CutShowsAgain`), exactly when that backend does not end there
  (`ForkRevert.RevertKeeps`). A fork given both turns stops before the whole segment of its last turn
  (`ForkRevert.CrossedFork`), exactly when the other one is that segment's first (`ForkRevert.ForkKeeps`).
- Live turns and history's turns part at some events, and then for good (`LiveHistory.PartedForGood`): a steer that Claude
  takes before anything else happens reads in history as a prompt of its own (`LiveHistory.SteeredAtOnce`); a prompt sent
  while a finished task's notification waits keeps its words live, and history goes on after the last block instead
  (`LiveHistory.PromptBeforeNoteRun`); after a result a notification and then a steer leave live where history went on
  (`LiveHistory.SteerAfterNoteRun`). `Runs.AfterEvent` says of every event whether it parts them, and
  `LiveHistory.SameTurns` that they show the same turns exactly while none has.
- A hidden row in stock's first page can end the thread list before it began (`Catalog.HiddenRowsEndTheList`). A call ends
  it early exactly when its offset is past the visible rows it read and the Claude rows up to the last one read, and not
  past all rows (`Catalog.PageEndsEarly`); a walk shows all rows exactly when none of its calls does
  (`Catalog.WalkShowsAll`).
- A section's recorded order is not kept up while it holds no Claude thread, so a move made then does not show
  (`Sections.StaleRecordHidesMove`; exactly when: `Sections.ForwardedShows`), and a later recorded move leaves stock's own
  order another than the listing's (`Sections.StaleRecordOutlives`; exactly when: `Sections.MoveRestricts`).
- The merged overrides are not flat when the empty key is set and a key below it is set last (`LaunchConfig.EmptyKeyStays`):
  `if (ancestor)` takes the empty ancestor for none (exactly when: `LaunchConfig.MergedOverrides`). The tree they stand for
  is right all the same.
- A window read back keeps a repeated uuid's first offset, read forward its last one (`Windows.RepeatedUuidKeepsFirst`;
  exactly when it matters: `Windows.BackKeepsOffsets`).
- A turn's items page puts an anchor older than the turn on the wrong side when neither is among the newest turns read
  (`Items.OlderAnchorMisplaced`; exactly when: `Items.ItemsPageIsThreadPage`). Across segments it does so for the cursors that
  a page of the whole hands out, which name no segment (`StitchedItems.WholeCursorMisplaced`), and for an anchor on the
  segment's own marker (`StitchedItems.MarkerAnchorMisplaced`), and it does not notice an anchor that is gone from another
  segment (`StitchedItems.GoneAnchor`). For every cursor, exactly when: `StitchedItems.StitchedItemsIsWhole`.
- A peer's message that follows a result while sub-agents run lands in the turn that waits for them, not in one of its own
  id (the run of `Session.PeerMessageMisnamed`; exactly when: `Session.ClaudeSession.Continued`).
- A tool result that a walk selected before all of its response's blocks stands before them (`SelectHistory.ResultComesFirst`;
  exactly when: `Siblings.SiblingBlocks`). On a walk that passes no compaction that is exactly when the record its path ends
  at is such a result, its parents then in a cycle (`SelectHistory.BlocksFirstOnPath`); in a file in order it never happens
  (`SelectHistory.OrderedFileBlocksFirst`).

## Model

| member | source | states |
|---|---|---|
| Pagination.PageIs | src/protocol/turnPagination.ts:46-76 | a page fails exactly when its cursor does; else it is the first entries past the cursor, with a next cursor exactly when more remain and a backwards cursor to its first |
| Pagination.PageHolds | src/protocol/turnPagination.ts:69-76 | a page holds as many entries as were asked for, 25 if none were told and else kept between 1 and 100, or all that remain if these are fewer |
| Pagination.NextRemaining | src/protocol/turnPagination.ts:56-75 | what remains past the cursor of the n-th entry shown is what remained without the first n |
| Pagination.RemainingKept | src/protocol/turnPagination.ts:57-67 | newest first, entries appended later change nothing of what remains past a cursor |
| Pagination.WalkShowsAll | src/protocol/turnPagination.ts:46-76 | with distinct ids and any limits a walk shows the selected entries in order, a prefix until it ends and each once then, within one request more than entries; newest first also while entries are appended |
| Items.ThreadCutElsewhere | src/protocol/turnPagination.ts:106-113 | an anchor of another turn shows all of a turn's items or none, by which side it is on |
| Items.MarkerCut | src/claude/threads.ts:577-583 | beside a marker turn that holds the anchor, the turn's items are cut as by an anchor on the marker's side |
| Items.ItemsPageIsThreadPage | src/claude/threads.ts:568-584 | one turn's page, alone or beside a marker, is the page of all the thread's items filtered to the turn, errors and cursors included, exactly when `Faithful`: not for an older turn's anchor with neither turn read, nor for a bad cursor only the thread notices |
| Items.OlderAnchorMisplaced | src/claude/threads.ts:568-584 | three turns of which the last was read: the second one's page from the first one's item is not the thread's |
| StitchedItems.FromElsewhere | src/gateway/lineage.ts:427-440 | over all stitched turns, an anchor of another turn shows the turn as without a cursor or not at all, by side and direction |
| StitchedItems.MarkersWhole | src/gateway/lineage.ts:278-289 | the whole has the marker turn of each Claude segment after the first, and no other |
| StitchedItems.StitchedItemsIsWhole | src/gateway/lineage.ts:423-443 | for every cursor, whatever it names and wherever its anchor is, one turn's items through its segment are the page of all stitched items filtered to the turn exactly when `Right`: the side the cursor's segment, the newest turns read or stock's own list puts the anchor on is the one it is on, or the side does not matter, and a bad or gone anchor is noticed by both |
| StitchedItems.NamedIsRight | src/gateway/lineage.ts:427-440 | from a cursor that names its anchor's segment, another one than the turn's, the turn's page is always the whole's |
| StitchedItems.SideAgainstWhole | src/gateway/lineage.ts:427-440 | a turn taken whole or not at all by a side is the whole's page exactly when the anchor is on that side, or it does not matter |
| StitchedItems.ClaudeSide | src/claude/threads.ts:568-584 | an anchor that is no item of the turn counts as newer exactly as the newest turns read tell |
| StitchedItems.ClaudeAgainstWhole | src/gateway/lineage.ts:436-442 | Claude's page of a turn against the whole's, for every cursor: by the side its newest turns tell |
| StitchedItems.StockAgainstWhole | src/gateway/lineage.ts:436-442 | stock's page of a turn against the whole's, for every cursor: by where its own turns have the anchor |
| StitchedItems.UnreadOlder | src/gateway/lineage.ts:436-442 | in every lineage: from an older item that names Claude's segment or none, a turn of it that has items is not paged as the whole pages it when neither is among the newest turns read |
| StitchedItems.WholeCursorMisplaced | src/gateway/lineage.ts:316-443 | the cursor of a page of the whole, on stock's item: Claude's turn is not paged as the whole pages it |
| StitchedItems.MarkerAnchorMisplaced | src/gateway/lineage.ts:427-443 | nor from an anchor on Claude's own marker |
| StitchedItems.GoneAnchor | src/gateway/lineage.ts:436-440 | an anchor that names another segment and is gone is an error for the whole and a page for the turn |
| Segments.NewestIsStitched | src/gateway/lineage.ts:278-289 | segment by segment from the newest, each reversed, is the reverse of the stitched turns |
| Segments.MarkersStitched | src/gateway/lineage.ts:278-289 | the markers stitched are exactly those of the Claude segments after the first |
| Segments.TurnsStitched | src/gateway/lineage.ts:278-289 | a backend turn is stitched exactly when no cut comes before it in a segment of that backend |
| Segments.MarkerBefore | src/gateway/lineage.ts:281-286 | a marker stands right before the turns of its segment |
| Segments.CodexSecond | src/gateway/lineage.ts:281-286 | a Claude thread switched to Codex has its two turns and no marker |
| Stitching.ClaudePage | src/protocol/turnPagination.ts:92-98 | `paginateTurns` of Claude's turns is a page of what its cursor left, and its next cursor leaves the rest |
| Stitching.AdvanceRest | src/gateway/lineage.ts:360-375 | a backend page without what is skipped, and then what is left from the next position, are what was left |
| Stitching.MarkerRest | src/gateway/lineage.ts:355-359 | the marker, and then what is left in the older segments, are what was left |
| Stitching.StockTurnsPage | src/gateway/lineage.ts:341-344 | any page stock may give of what its cursor left |
| Stitching.Lineages.SegmentPage | src/gateway/lineage.ts:341-344 | a segment's page is one of its own backend, past that backend's cursor |
| Stitching.Lineages.Take | src/gateway/lineage.ts:361-370 | of a backend page the turns from the anchor on, and every turn of it noted as found in that backend |
| Stitching.Lineages.StitchedPage | src/gateway/lineage.ts:350-383 | a page is the next turns from where the cursor stands, full unless nothing is left, across segments and markers; it ends; it fails exactly for an anchor without a segment that is no stitched turn; each turn's segment is remembered |
| Stitching.Lineages.PagePosition | src/gateway/lineage.ts:397-409 | a client's cursor stands for a position that fits a segment and its backend's cursor |
| Stitching.Lineages.SegmentOf | src/gateway/lineage.ts:412-420 | a turn's segment is found by paging back, however the cache was filled; the error means it is no stitched turn |
| Stitching.NotLocated | src/gateway/lineage.ts:413-418 | a turn that no page of the whole walk located is no stitched turn |
| StitchedPaging.StitchedOnce | src/gateway/lineage.ts:278-289 | no turn and no marker is stitched twice |
| StitchedPaging.AnchorRest | src/gateway/lineage.ts:397-409 | what is left from an anchor's position are the stitched turns from it on, newest first, in either backend and at a marker |
| StitchedPaging.StitchedPageIsPaginated | src/gateway/lineage.ts:350-383 | a stitched page is `paginateTurns` of all stitched turns: same turns, same backwards anchor, and a next position that leaves what its next cursor leaves |
| StitchedPaging.WalkShowsStitched | src/gateway/lineage.ts:350-409 | over any number of segments and any limits, following positions shows exactly the reverse of the stitched turns, each turn and marker once, and ends within one page more than turns |
| StitchedPaging.WalkShowsMarkers | src/gateway/lineage.ts:350-383 | a walk to its end shows the marker of each Claude segment after the first, and no other |
| StitchedPaging.CodexSecondPage | src/gateway/lineage.ts:350-383 | the first page of a Claude thread switched to Codex is its two turns, newest first |
| ForkRevert.Locate | src/gateway/lineage.ts:448-454 | the first segment and place that hold a turn; none exactly when no segment holds it |
| ForkRevert.LocateStitched | src/gateway/lineage.ts:448-454 | a turn is located exactly when it is a stitched turn |
| ForkRevert.PlanKeeps | src/gateway/lineage.ts:456-480 | the earlier segments' real turns and what the backend fork keeps are the wanted turns, exactly unless both turns are given and the one to stop before is the first of the last one's segment |
| ForkRevert.ForkKeeps | src/gateway/lineage.ts:456-490 | a fork fails exactly when the turn that decides is no stitched turn; else its real turns are the source's up to `lastTurnId`, or without one before `beforeTurnId`, or all, exactly unless the two cross; the source's backends stay |
| ForkRevert.ForkAt | src/gateway/lineage.ts:456-479 | the segment a fork continues: the last one with no turn given, a turn's own, or the one before that when nothing but the marker stands before a turn to stop before, or the turn is the marker of a segment without turns |
| ForkRevert.RevertKeeps | src/gateway/lineage.ts:492-522 | a revert leaves exactly the real turns before its turn; one that drops a segment does so exactly when the segment it leaves current ends at its cut |
| ForkRevert.RevertFails | src/gateway/lineage.ts:491-502 | a revert fails exactly for a turn the thread does not have, or when it drops the segment the thread is listed by: the turn is in an earlier one, or in that one, not the first, after nothing but its marker |
| ForkRevert.SharedRevert | src/gateway/lineage.ts:492-522 | another lineage's shared segment keeps its turns exactly when its cut is before the turn reverted to |
| ForkRevert.CutShowsAgain | src/gateway/lineage.ts:492-522 | a switched thread whose first backend went on past its cut: reverted before the switch, the turn past the cut shows again |
| ForkRevert.ForkLosesTurn | src/gateway/lineage.ts:492-522 | a backend reverted before its second turn, and a fork cut at it loses it |
| ForkRevert.CrossedFork | src/gateway/lineage.ts:456-480 | a fork up to the second turn of a segment and told to stop before the first: it keeps neither |
| LineageTable.StepKeeps | src/gateway/lineage.ts:198-225 | every switch, fork, revert and delete keeps ownership, and every listed backend exactly unless it deletes a thread of one segment |
| LineageTable.RunKeeps | src/gateway/lineage.ts:456-522 | every run keeps ownership: keys own their suffixes, which are pairwise disjoint; one without such a delete loses no listed backend |
| LineageTable.SwitchKeeps | src/gateway/lineage.ts:621-624 | a switch to a fresh backend keeps ownership and every listed backend |
| LineageTable.SwitchLeaves | src/gateway/lineage.ts:621-624 | a switch cuts the last segment at its turn and appends the new backend's; the other segments and lineages are as they were |
| LineageTable.ForkLeaves | src/gateway/lineage.ts:479-488 | a fork past the first segment gets the segments before it and its own backend; any other is its backend's alone |
| LineageTable.RevertLeaves | src/gateway/lineage.ts:497-517 | a revert keeps the first segments, the last without its cut, or drops a lineage back to its own one segment that no other lists; the backends no lineage lists then go; else nothing changes |
| LineageTable.DeleteLeaves | src/gateway/lineage.ts:214-222 | deleting a thread of several segments drops its lineage, and exactly those of its backends that no other lineage lists |
| LineageTable.ForkedPairReached | src/gateway/lineage.ts:456-490 | a switched thread forked in its second segment is reached from one plain thread |
| LineageTable.SingleDeleteLosesFork | src/gateway/lineage.ts:198-225 | from there a revert and a delete remove a backend that the fork still lists |
| LineageTable.RewritesSound | src/meta.ts:187-196 | under ownership every current backend reads as its public id, no two as one, a public id is never rewritten again, and only hidden backends are |
| MetaStore.Meta.Reindex | src/meta.ts:187-196 | the two loops rebuild the rewrites and the hidden ids as the table says |
| MetaStore.Meta.HideSegments | src/meta.ts:190-195 | hides exactly the backends that are no lineage's own |
| MetaStore.Meta.SetLineage | src/meta.ts:77-81 | the table with the lineage, and both indexes right |
| MetaStore.Meta.DeleteLineage | src/meta.ts:83-87 | the table without the lineage, and both indexes right |
| MetaStore.Meta.Row | src/meta.ts:73-75 | the one segment that is the public id's own |
| MetaStore.Gateway.SwitchProvider | src/gateway/lineage.ts:621-624 | the switch step of the table, in place |
| MetaStore.Gateway.Fork | src/gateway/lineage.ts:480-487 | the fork step of the table, in place |
| MetaStore.Gateway.Revert | src/gateway/lineage.ts:496-517 | the revert step: the lineage kept, shortened or dropped, and the backends no lineage lists any more deleted |
| MetaStore.Gateway.Delete | src/gateway/lineage.ts:217-225 | the delete step: exactly the backends that no other lineage lists go |
| Projector.SteeredPrompts | src/claude/native/projector.ts:495-525 | the queue kept record by record tells the steered prompts of the whole transcript |
| Projector.TurnStarts | src/claude/native/projector.ts:541-575 | the loop's starts are the fold's, from which the partition is made |
| Projector.PartitionNew | src/claude/native/projector.ts:594-596 | a record more that starts a turn adds a turn and leaves the others |
| Projector.PartitionSame | src/claude/native/projector.ts:594-596 | a record more that starts none goes to the last turn |
| Projector.OnePass | src/claude/native/projector.ts:495-596 | both passes and the partition give what one pass over the records gives |
| LiveTurns.TextGrows | src/claude/session.ts:1082-1085 | while a text streams in any deltas, the last block stays that text, as long as all of them, and nothing else changes |
| LiveTurns.LongTextGoesOn | src/claude/session.ts:1025-1048 | the block after a text goes on in a turn named after it exactly when the deltas come to 800 characters; else in the same turn |
| LiveTurns.NoteGoesOn | src/claude/session.ts:787-816 | with no turn running, the command taken after a task's end goes on in the turn named after the last block, once; without one it is a turn of its own |
| LiveTurns.IdleAfterResult | src/claude/session.ts:658-664 | a turn ends as Claude goes idle after its result, not before it, nor for an earlier turn's |
| LiveTurns.WordsAfterResult | src/claude/session.ts:826-843 | only the first words after a result go on in the next turn, and exactly when the last prompt is a notification not the turn's own and a block was shown |
| LiveTurns.PromptsWait | src/claude/session.ts:423-459 | a prompt is a turn of its own, or waits in the running one and then opens none |
| LiveHistory.EventSound | src/claude/session.ts:683-843 | every event, in any order, keeps what the live split relies on: the open turn is the last, ids are known, pending prompts were sent |
| LiveHistory.EventQueue | src/claude/native/projector.ts:495-525 | history's queue and taken texts follow Claude's queue over every event |
| LiveHistory.EventTogether | src/claude/native/projector.ts:541-575 | an event that does not part them keeps history's turns on the live ones; one that does makes them differ |
| LiveHistory.EventStaysParted | src/claude/native/projector.ts:541-575 | once they differ, no event brings them together |
| LiveHistory.SameTurns | src/claude/session.ts:779-843 | over every run of prompts, notifications, words, each text in any deltas, tool results, results and idleness in any order, history shows the turns seen live, same ids and same blocks in each, but for those only one of them has begun so far, exactly when no event of the run parted them |
| LiveHistory.PartedForGood | src/claude/session.ts:779-843 | a run that was parted at any time never shows the same turns again |
| LiveHistory.PromptReadBack | src/claude/session.ts:101-105 | in every run the prompt a session reads back is the transcript's last one that is no tool result |
| LiveHistory.SteeredAtOnce | src/claude/session.ts:466-484 | a prompt, a steer and its taking at once part them |
| LiveHistory.PromptBeforeNote | src/claude/session.ts:787-816 | in every run so far, with Claude idle and a block shown: a task ends, a prompt is sent, the notification is taken, and they part |
| LiveHistory.PromptBeforeNoteRun | src/claude/session.ts:787-816 | such a run from the start |
| LiveHistory.SteerAfterNoteRun | src/claude/session.ts:826-843 | a notification and a steer taken after a result, before any words: words part them |
| TurnTrace.TurnsAlternate | src/claude/session.ts:621-729 | in every trace of the session a turn that started is the next to complete, with its own id |
| TurnTrace.CompletesOnce | src/claude/session.ts:690-729 | no turn completes twice, nor without having started |
| TurnTrace.ItemsOnce | src/claude/session.ts:1159-1260 | an item completes once at most, and after it started |
| TurnTrace.NoNewStart | src/claude/session.ts:1159-1260 | an item that completed does not start again |
| Session.ClaudeSession.constructor | src/claude/session.ts:621-646 | a session begins valid, with no turn and nothing told |
| Session.StatusesTold | src/claude/session.ts:690-712 | in every session each completion told is of a turn that ended, in order: interrupted exactly when Stop or an aborted result came for it, else failed exactly when a failed message, its process's failure or a result with an error did, else completed |
| Session.OneTurn | src/claude/session.ts:1273-1291 | a prompt, at most one failed message, a result and idleness: the whole trace, the turn interrupted, failed or completed as these told |
| Session.ClaudeSession.OpenTurn | src/claude/session.ts:621-646 | the turn's start and then the active status; what was known of the last turn is forgotten |
| Session.ClaudeSession.EnsureTurn | src/claude/session.ts:779-784 | a running turn stays; else one opens under the id, which waits no longer |
| Session.ClaudeSession.EndTools | src/claude/session.ts:693-700 | every tool item with a status that still runs completes with the turn |
| Session.EndsAre | src/claude/session.ts:693-700 | exactly the running tools with a status complete as a turn ends, in that turn |
| Session.ClaudeSession.CompleteTurn | src/claude/session.ts:690-729 | one completion with the status that what came for the turn tells; going on, nothing else changes; else items end, the next submission is taken, or a turn waits for the sub-agents, or the status is idle |
| Session.ClaudeSession.AfterCompletion | src/claude/session.ts:714-729 | which of the three follows a turn: a queued submission, the wait for sub-agents, idleness |
| Session.ClaudeSession.WaitForAgents | src/claude/session.ts:670-680 | the waiting turn has the id Claude goes on in |
| Session.ClaudeSession.ContinueTurn | src/claude/session.ts:683-687 | after an answer the next turn is named after its last block; tools run on |
| Session.ClaudeSession.MaybeComplete | src/claude/session.ts:658-664 | completes exactly when the result was seen and Claude is idle, or sub-agents work on and the turn does not wait yet |
| Session.ClaudeSession.StartTurn | src/claude/session.ts:423-459 | a prompt gets its own turn, also while one only waits, which completes first; else it goes into the running turn |
| Session.ClaudeSession.StartLaunched | src/claude/session.ts:714-728 | the submission that was queued starts its turn |
| Session.ClaudeSession.Steer | src/claude/session.ts:466-484 | taken exactly into a running turn that does not wait |
| Session.ClaudeSession.Interrupt | src/claude/session.ts:525-550 | Stop came for the open turn: sub-agents and tasks stop; a turn that only waits, or an idle one, completes interrupted now, a busy one later |
| Session.ClaudeSession.EndBackground | src/claude/session.ts:563-572 | the command's item completes in the turn it started in, once |
| Session.ClaudeSession.Continued | src/claude/session.ts:826-843 | what Claude took right after a result: a notification goes on in the next turn, a peer's message gets its own turn unless sub-agents run |
| Session.ClaudeSession.Wakes | src/claude/session.ts:760-765 | a waiting turn that Claude speaks in is its own again |
| Session.ClaudeSession.Streams | src/claude/session.ts:758-784 | words find a turn that runs, opened or gone on in as history does |
| Session.ClaudeSession.BlockStart | src/claude/session.ts:1025-1048 | a block after an answer starts the next turn, any other goes to the running one |
| Session.ClaudeSession.TextDelta | src/claude/session.ts:1082-1085 | a text block grows by the delta and keeps its id, nothing else |
| Session.ClaudeSession.ToolUse | src/claude/session.ts:1159-1182 | an item starts once; a TaskStop's waits for its result |
| Session.ClaudeSession.ToolEnds | src/claude/session.ts:1234-1257 | a tool with its result leaves the running ones: completed once, or told again as a task in the background |
| Session.ClaudeSession.ToolResult | src/claude/session.ts:1215-1260 | a result ends the tool of its id and no other; a TaskStop shows on the command it stopped, or starts and completes as an item now; an unknown id changes nothing |
| Session.ClaudeSession.OnResult | src/claude/session.ts:1273-1291 | the result came for the open turn, with its error or interruption: it completes with it at once when Claude is idle or sub-agents work on, and else keeps it until Claude is idle |
| Session.ClaudeSession.AssistantFailed | src/claude/session.ts:1141-1141 | a message that tells an error came for the running turn, and for no other |
| Session.ClaudeSession.CommandStarted | src/claude/session.ts:787-823 | a pushed message joins the running turn or opens one; a waiting turn gives way to a prompt, not to a notification |
| Session.ClaudeSession.CommandCompleted | src/claude/session.ts:787-816 | the turn's own command completed is its result; any other changes no turn |
| Session.ClaudeSession.StateChanged | src/claude/session.ts:916-926 | going idle completes a turn whose result was seen; running alone changes none |
| Session.ClaudeSession.RunningTimer | src/claude/session.ts:918-923 | Claude running by itself for a moment has a turn |
| Session.ClaudeSession.TaskStarted | src/claude/session.ts:943-946 | a sub-agent is waited for, any other task is listed |
| Session.ClaudeSession.TaskNotification | src/claude/session.ts:948-955 | a task ends with its background item; idle or waiting, the next command is told apart as its notification's |
| Session.ClaudeSession.QueryEnded | src/claude/session.ts:373-408 | the process ended, and its failure came for the running turn: it completes with that status, and its items end |
| Session.ClaudeSession.PeerPromptRead | src/claude/session.ts:886-905 | another agent's message found as a prompt right after a result gets its own turn, unless sub-agents run |
| Session.PeerMessageMisnamed | src/claude/session.ts:826-843 | a run that ends with another agent's message in the turn that waits for a sub-agent |
| Relink.RelinkCompactions | src/claude/native/history.ts:32-66 | the loop keeps the records and changes only parents; a compaction lacks messages exactly when one it kept is missing |
| Relink.RelinkBoundary | src/claude/native/history.ts:32-66 | one compaction relinked in place is its relinking as a function |
| Relink.RelinkedKeeps | src/claude/native/history.ts:32-66 | any compactions change only parents |
| Relink.RelinkedParents | src/claude/native/history.ts:41-54 | where each record hangs after: the kept messages in a chain below the anchor, the anchor's other children below the last one |
| Relink.RunsThroughKept | src/claude/native/history.ts:41-54 | from each of those children the parents run through the kept messages, last to first, and then to the anchor |
| Relink.RunsThroughRange | src/claude/native/history.ts:55-63 | a kept range that is a chain of parents: from each other former child of the anchor the parents run through it, tail to head, and then to the anchor |
| BranchWalk.Walk | src/claude/native/history.ts:201-231 | on any graph the walk ends and selects no uuid twice; it is the path up the relinked parents, or that up to the first compaction with a logical parent and from there on, each time, the last occurrence of the parent's or logical parent's uuid before the last compaction passed, or the first one up from it not selected yet, until there is none or it comes to one it passed over before; `missing` is where it would go on |
| BranchWalk.WalkIsPath | src/claude/native/history.ts:201-231 | a walk that jumped nowhere is the path up the parents |
| WindowWalk.NearestConversational | src/claude/native/history.ts:178-190 | the first user or assistant record up the parents, guarded against cycles |
| WindowWalk.FirstSpeaks | src/claude/native/history.ts:178-190 | the conversational record of a path is its first user or assistant record, or there is none |
| WindowWalk.ChooseLeaf | src/claude/native/history.ts:168-199 | the chosen leaf is the latest of the best candidates; none only when no leaf leads to a conversation |
| WindowWalk.LeafPreferred | src/claude/native/history.ts:192-199 | against any other candidate the chosen leaf's conversation is of the main thread (no sidechain, team or meta record) if the other's is, and of two alike the leaf is the later |
| WindowWalk.NothingRelinked | src/claude/native/history.ts:32-66 | without a compaction nothing is relinked |
| WindowWalk.WindowWalkIsPart | src/claude/native/history.ts:201-231 | over a suffix of the file the walk is exactly the part of the full walk inside it |
| WindowWalk.NotTruncatedIsWhole | src/claude/native/history.ts:232-240 | a walk that is not truncated is the whole walk; a truncated one is exactly when the file's is truncated there too |
| WindowWalk.NearestInBoth | src/claude/native/history.ts:178-190 | what a window finds above a record the file finds, and what the file finds inside the window the window finds |
| WindowWalk.SameLeaf | src/claude/native/history.ts:168-199 | a suffix that holds the leaf and its conversational record has that leaf and no other |
| Siblings.Group | src/claude/native/history.ts:76-97 | the four indexes of the loop: each record's response, each response's blocks and each record's tool results in the file's order, and that order |
| Siblings.BlocksAre | src/claude/native/history.ts:81-90 | a response's blocks are exactly the records of its message between the same prompts |
| Siblings.OneResponse | src/claude/native/history.ts:81-92 | two records are blocks of one response exactly when they name the same message and no prompt, that is no meta record and no tool result, was written between them |
| Siblings.ResultsOfResponse | src/claude/native/history.ts:93-96 | a record is a tool result of a response exactly when it holds one and its parent is a block of it |
| Siblings.BlocksSorted | src/claude/native/history.ts:99-105 | sorted, they stand by their indexes, equal ones in the file's order, whenever the comparison is consistent on them |
| Siblings.BlocksStand | src/claude/native/history.ts:99-105 | of two blocks as shown the first has the smaller index, or was written first where the indexes are equal or one is missing |
| Siblings.AllIndexedOrNone | src/claude/native/history.ts:99-105 | it is when all have an index, or none has |
| Sorting.SortSorts | src/claude/native/history.ts:119-126 | a stable sort by a consistent comparison sorts, and keeps the order where the comparison tells nothing |
| Siblings.PushNew | src/claude/native/history.ts:127-131 | appends what is not there yet, each once and in order |
| Siblings.SiblingBlocks | src/claude/native/history.ts:68-134 | every selected uuid once, with all blocks and results of the responses reached and nothing else, in the order of the selected records that bring them; of one response the blocks in its order, then the results in the file's, but for a result selected before all of its blocks; with no assistant's record the selection itself |
| SelectHistory.Select | src/claude/native/history.ts:151-241 | the history of every file, from a given or the chosen leaf: last records, relinked, walked, expanded, and of these the visible ones; what it tells of compactions, truncation and the jump |
| SelectHistory.ShownKinds | src/claude/native/history.ts:136-149 | of what the walk brings exactly these are shown: no record of a sidechain or a team, no attachment but a queued command, and no meta record but another agent's user record or a queued command |
| SelectHistory.PathShown | src/claude/native/history.ts:136-149 | on a path that passes no compaction every other record is shown, and every message another agent sent |
| SelectHistory.StraightShows | src/claude/native/history.ts:136-149 | in a file whose records each follow the one before, which of them the history from the last one shows |
| SelectHistory.KindsShown | src/claude/native/history.ts:136-149 | eight records, one of each hidden kind: four are shown |
| SelectHistory.PartialTold | src/claude/native/history.ts:32-40 | a history lacks kept messages exactly when its walk passes a compaction that follows its anchor in the file without one of the messages it kept, or an end of its range |
| SelectHistory.HistoryOfPath | src/claude/native/history.ts:144-241 | with no compaction passed: exactly the visible records of the path up the relinked parents and of the responses with a block on it, each once, in the path's order and each response's; truncated exactly when the path ends at a parent the file lacks, and then blocks stand first |
| SelectHistory.BlocksFirstOnPath | src/claude/native/history.ts:109-132 | there every block stands before its response's results exactly when the record the path ends at is no result of a block in the file; so always when it has no parent or one the file lacks |
| SelectHistory.OrderedFileBlocksFirst | src/claude/native/history.ts:109-132 | in a file of distinct uuids, parents first and without compactions, blocks always stand first |
| SelectHistory.ResultComesFirst | src/claude/native/history.ts:109-132 | two records in a cycle: the result stands before its block |
| SelectHistory.OrderOf | src/claude/native/history.ts:152-156 | the map's order lists each uuid once, at its first occurrence |
| Lines.ParseLines | src/claude/native/pages.ts:85-98 | the records on the complete lines with their positions, and where the last one ends |
| Lines.LineRead | src/claude/native/pages.ts:85-98 | each complete line is read where it stands: its record if it has one, at its start, between those before and after it |
| Lines.EntriesConcat | src/claude/native/pages.ts:85-98 | whole lines and then the rest are read as all of it |
| Lines.EntriesOfWhole | src/claude/native/pages.ts:85-98 | what follows the last complete line changes nothing |
| Lines.PositionsAreLines | src/claude/native/pages.ts:85-98 | positions are line starts, in order |
| Lines.EntriesFrom | src/claude/native/pages.ts:85-98 | the bytes from a record's line on hold the records from it on |
| Windows.Window.ReadBack | src/claude/native/pages.ts:105-123 | the window's records are the parsed lines of its bytes, whatever the chunk; the error is never raised; a read that finds no line start changes nothing |
| Windows.Window.ReadForward | src/claude/native/pages.ts:126-137 | the window then holds all complete lines from its start |
| Windows.Window.Trim | src/claude/native/pages.ts:153-160 | drops exactly the records before the offset, unless none would be left |
| Windows.Window.After | src/claude/native/pages.ts:140-150 | the line of the first record after a uuid's, or the window's end |
| Windows.Window.Fill | src/claude/native/pages.ts:264-298 | ends for every chunk of a byte or more, though a read may move nothing; with enough, the leaf is in the window; without, the file before it has no such record |
| Windows.ForwardKeepsOffsets | src/claude/native/pages.ts:126-137 | reading on keeps each uuid's offset the last one, whatever repeats |
| Windows.BackKeepsOffsets | src/claude/native/pages.ts:117-120 | reading back does so exactly when each uuid new to the window occurs once in what was read |
| Windows.TrimKeepsOffsets | src/claude/native/pages.ts:156-159 | dropping records keeps the offsets of the others |
| Windows.GrowthKeeps | src/claude/native/pages.ts:126-137 | what a window shows it still shows once the file grew |
| Windows.DistinctIsNewOnce | src/claude/native/pages.ts:117-120 | with distinct uuids reading back always keeps the offsets right |
| Windows.RepeatedUuidKeepsFirst | src/claude/native/pages.ts:117-120 | two lines with one uuid read back at once: the first one's offset is kept |
| RecordReader.Read | src/claude/native/records.ts:177-220 | records, complete bytes and bytes read are those of the bytes, for every chunking |
| RecordReader.LineRecordsConcat | src/claude/native/records.ts:188-212 | whole lines and then the rest are read as all of it |
| RecordReader.CountedKept | src/claude/native/records.ts:205-211 | what a read counted holds all it read: the start of an unfinished line adds nothing |
| RecordReader.ReadOnIsWhole | src/claude/native/catalog.ts:370-400 | reading on from the complete bytes is reading the whole, exactly when the line broken there holds the same record in two parts as in one |
| RecordReader.CachedEntry.Summarize | src/claude/native/catalog.ts:370-400 | after any appends and refreshes the cached summary is the fold over the whole file |
| RecordReader.ReadFrom | src/claude/native/catalog.ts:384-399 | from the offset with its state, or from the start with none: the whole file's summary and complete bytes |
| Summary.Summarizer.Accept | src/claude/native/summary.ts:134-189 | after any records each field is the first, the last or the list of what they tell it |
| Summary.Summarizer.AcceptPlace | src/claude/native/summary.ts:135-149 | directory and creation are the first told, change, branch and version the last |
| Summary.DirectoryIsFirst | src/claude/native/summary.ts:143-147 | the directory is the first that a user, assistant, system or attachment record tells |
| Summary.Summarizer.AcceptPrompt | src/claude/native/summary.ts:150-165 | the preview is the first prompt's; delegation and messages as told |
| Summary.PreviewIsFirst | src/claude/native/summary.ts:77-90 | the preview is that of the first prompt: a sub-agent's given one, a human's message, or an unnamed text that is no setting, markup, injected history or interruption's note; never another meta record, summary or tool result |
| Summary.Summarizer.AcceptSettings | src/claude/native/summary.ts:156-188 | permissions, titles, model, effort and speed are the last told, Claude's own replies telling none |
| Summary.RepliesTell | src/claude/native/summary.ts:167-174 | model, effort and speed are those told last by a reply that is not Claude's own, the speed by a finished one |
| Summary.SettingsTell | src/claude/native/summary.ts:156-188 | titles and permission mode are those told last, delegation by the last unnamed message that says so |
| Summary.MessagesAre | src/claude/native/summary.ts:162-165 | the messages listed are exactly those that user records tell were sent, or that another agent sent |
| Subagents.Head | src/claude/native/subagents.ts:49-55 | the doubling from 65536 bytes ends; the whole lines read from the start hold the sub-agent's prompt, or are all and no prompt is; half as many bytes did not hold it |
| Subagents.Tail | src/claude/native/subagents.ts:58-67 | the doubling from 65536 bytes ends; the whole lines read from the end hold a reply of the model, or reach the start; half as many bytes held none |
| Subagents.TaskPromptIs | src/claude/native/subagents.ts:36-42 | the prompt is the first user record the tool call made, else the first with a text that is no compaction's summary |
| Subagents.ReadSubagent | src/claude/native/subagents.ts:73-96 | the header of all whole lines from the two ends alone (its effort exactly when the middle does not tell the last one), given a directory and a time in the head and timed replies |
| Subagents.FirstSkips | src/claude/native/subagents.ts:78-83 | a field told first is the same without the middle exactly when the middle does not tell it first |
| Subagents.LastSkips | src/claude/native/subagents.ts:78-83 | a field told last is the same without the middle exactly when the middle does not tell it last |
| Subagents.EndsTellAll | src/claude/native/subagents.ts:73-96 | the head with a prompt and the tail with a reply tell the whole header |
| Refresh.Scans.Refresh | src/claude/native/catalog.ts:139-153 | a call begins a scan, or waits for the one after that in flight |
| Refresh.Scans.Begin | src/claude/native/catalog.ts:139-153 | with none in flight, the caller is served by a scan begun now |
| Refresh.Scans.Join | src/claude/native/catalog.ts:140-147 | else it waits with all who came meanwhile |
| Refresh.Scans.ScanEnds | src/claude/native/catalog.ts:148-152 | the scan serves exactly those it began with, none of them having called after it began |
| Refresh.Scans.QueuedRuns | src/claude/native/catalog.ts:141-146 | those who waited are served by the next scan, or wait on for one begun later still; every call is served once |
| Catalog.MergeRows | src/gateway/catalog.ts:126-139 | the two indices merge as the recursion does |
| Catalog.MergeKeeps | src/gateway/catalog.ts:126-139 | the merge holds both lists, each in its order, and nothing else |
| Catalog.MergeSorted | src/gateway/catalog.ts:126-139 | of sorted lists it is sorted |
| Catalog.MergeInParts | src/gateway/catalog.ts:126-139 | lists cut where no later row comes before an earlier one of the other merge part by part |
| Catalog.FinalIsPrefix | src/gateway/catalog.ts:163-176 | the rows kept of a prefix of stock are the first of the full merge, all of them once stock is read |
| Catalog.PageIsSlice | src/gateway/catalog.ts:155-182 | a page is that slice of the full merge, cut short where unseen rows may come; the next goes on after it |
| Catalog.WalkShowsPrefix | src/gateway/catalog.ts:155-182 | pages so far are the first rows of the full merge, each once, hidden rows or not |
| Catalog.WalkShowsAll | src/gateway/catalog.ts:155-182 | for any rows, paging of stock, limits and expiries, a walk to its end shows all rows exactly when none of its calls ends early, told by these inputs alone; with nothing hidden always |
| Catalog.PageEndsEarly | src/gateway/catalog.ts:163-180 | a call's page is empty with rows left exactly when its offset is past the visible rows read and the Claude rows no later than the last row read, and not past all; it shows as many rows as these leave |
| Catalog.KeptIsTold | src/gateway/catalog.ts:163-176 | the rows kept are that many |
| Catalog.CallHolds | src/gateway/catalog.ts:155-182 | with nothing hidden a call shows as many rows as were asked for, 50 if none were told and else kept between 1 and 200, or all that are left |
| Catalog.HiddenRowsEndTheList | src/gateway/catalog.ts:163-180 | a hidden row alone in stock's first page ends the list before its first row |
| Catalog.Listing.StockThreads | src/gateway/catalog.ts:94-112 | as many of stock's rows as are needed, from the cache or, afresh or on from it, page after page: exactly the rows that stock's paging gives |
| Catalog.ReadsJustEnough | src/gateway/catalog.ts:94-112 | stock is read on only while too little was read: the last page began before the rows needed |
| Catalog.Listing.List | src/gateway/catalog.ts:155-182 | one page of the list, with its limit kept between 1 and 200, from exactly the rows read: from the start for a first page or an expired cache, else on from the cache |
| Sections.Sorts | src/gateway/catalog.ts:145-153 | the section's order is by rank in the record, unknown threads last and in their own order, none lost |
| Sections.MoveShows | src/gateway/catalog.ts:253-270 | after a move that is recorded the listing is the recorded order, with the thread where it was asked for |
| Sections.MoveRestricts | src/gateway/catalog.ts:253-270 | for every section, after a recorded move stock's own order is the listing's exactly when that of the other threads was |
| Sections.ForwardedShows | src/gateway/catalog.ts:253-270 | for every section, a move only forwarded shows as asked exactly when the order asked for agrees with the old record, and with stock's for the threads not recorded; stock's order is the listing's exactly when it agrees with the record |
| Sections.StaleRecordHidesMove | src/gateway/catalog.ts:253-270 | two stock threads and an old record: the move does not show |
| Sections.StaleRecordOutlives | src/gateway/catalog.ts:253-270 | a move while no Claude thread is there and then a Claude thread's: stock's order is not the listing's any more |
| Sections.Manual.MoveInSection | src/gateway/catalog.ts:253-270 | any move in place, any number in a row: what it shows and exactly when stock's order is the listing's after it |
| Dots.JoinSplit | src/desktop/launchConfig.ts:23-30 | joining the parts of a key gives the key |
| Dots.SplitInjective | src/desktop/launchConfig.ts:23-30 | two keys have the same parts exactly when they are equal |
| LaunchConfig.ApartCommutes | src/desktop/launchConfig.ts:23-30 | paths neither of which leads to the other are set in any order |
| LaunchConfig.SetBelow | src/desktop/launchConfig.ts:23-30 | setting below a path sets inside the value there |
| LaunchConfig.SetOver | src/desktop/launchConfig.ts:23-30 | setting a path forgets what was set at it or below |
| LaunchConfig.LongestAncestor | src/desktop/launchConfig.ts:35-37 | the longest key of the map that is a dotted ancestor, or that there is none |
| LaunchConfig.SetInAncestor | src/desktop/launchConfig.ts:38-42 | setting inside an ancestor's value keeps the tree and the keys |
| LaunchConfig.DeleteBelow | src/desktop/launchConfig.ts:44-46 | the keys below one about to be set go without changing the tree |
| LaunchConfig.SetNew | src/desktop/launchConfig.ts:44-47 | with no ancestor, the keys below go and the key is set |
| LaunchConfig.MergedOverrides | src/desktop/launchConfig.ts:32-50 | for all overrides the map stands for the tree of setting each in order; a key of it is a dotted ancestor of another exactly when the empty key was set and one below it after it last |
| LaunchConfig.EmptyKeyStays | src/desktop/launchConfig.ts:35-48 | the empty key and then one below it: both stay, and the tree is right |
| Semver.VersionOrder | src/management/shimSelect.ts:8-30 | a total preorder over all versions, identifier lists mixed; level exactly with the same numbers and identifiers |
| Semver.ComparesAsSection11 | src/management/shimSelect.ts:8-30 | lower exactly when section 11 of Semantic Versioning 2.0.0 puts it lower |
| Semver.IdentifiersCompare | src/management/shimSelect.ts:17-28 | numerals without a leading zero compare by length and then digit by digit; any other identifier is higher than a numeral and compares as text |
| Semver.ComparePrereleases | src/management/shimSelect.ts:17-28 | the loop over identifiers is that order |
| Semver.CompareSemver | src/management/shimSelect.ts:8-30 | the method compares as that order |
| Ownership.Runtime.ExactSocketOwnerPresent | src/daemon/ownership.ts:162-175 | true right after the sight of the expected process alone with its identity, false right after that of none, else the error it saw |
| Ownership.Runtime.SignalExactSocketOwner | src/daemon/ownership.ts:177-191 | a signal exactly on the sight of the expected process with its identity, and to it; a process gone by then counts as maybe gone |
| Ownership.Runtime.IdentifySocketOwner | src/daemon/ownership.ts:193-218 | a record right after its process was seen as the one owner, with its start time, and as the owner still; each failure follows what explains it, so nothing else fails |
| Ownership.Runtime.Poll | src/daemon/ownership.ts:228-236 | one turn of the loop keeps the fence; a reading of the clock 10 seconds past the first, right after the owner was seen, is followed by another look, and SIGKILL if it still is the owner |
| Ownership.Runtime.StopSocketOwner | src/daemon/ownership.ts:220-238 | against every environment: signals fenced, SIGTERM whenever the first look sees the owner, SIGKILL once and exactly on the look after an overdue reading that sees it still; a timeout after such a reading, or where the clock goes by the sleeps alone, comes after the SIGKILL; a return only on the sight of no owner, a timeout only once expired |
| Ownership.QuietKeeps | src/daemon/ownership.ts:162-175 | looking keeps the fence and the order of signals |
| Ownership.SignalKeeps | src/daemon/ownership.ts:177-191 | so does a signal in its turn on the right sight |
| Ownership.OneOfEach | src/daemon/ownership.ts:220-238 | two signals of a stop are SIGTERM and then SIGKILL past the grace period, and there is no third |

## Left out

- Stitching.StockTurnsPage: stock's paging is any that shows the next of what is left and a cursor for the rest, because its code is not part of this repository.
- StitchedPaging.StitchedPageIsPaginated: a position's cursor text is not compared with the whole list's, only what it leaves; cursor texts are opaque to clients.
- StitchedItems.StitchedItemsIsWhole: takes stock's items list to be `paginateItems` of its turns, and a backend to know nothing of the gateway's markers; a cursor text that holds a marker's id other than as its anchor is not modelled.
- Items.ItemsPageIsThreadPage: the live turn beside the transcript's is one turn of the list here.
- ForkRevert.ForkKeeps: takes a backend's fork to hold the turns it keeps under the same ids, and to go by `lastTurnId` when it is given both; the forking itself is the SDK's and stock's, whose code is not part of this repository.
- Windows.Window.Fill: whether the projection of a window is truncated, or lacks a compaction's kept messages, is one oracle of the window's records.
- LiveHistory.SameTurns: covers prompts, steers, streamed blocks, tool results, results, idleness and finished tasks' notifications in any order, with one indexed block per record and every block streamed; not sub-agents, peers' messages, queued submissions or late narration signatures.
- Session.ClaudeSession.OpenTurn: a turn whose start a provider switch told ahead, under its preallocated id, is started here in the trace; that the session then tells only the status is not modelled.
- Session.ClaudeSession.StartTurn: opening a turn and its deferred announcement are one step; the checks and settings before it are left out.
- Session.ClaudeSession.CompleteTurn: the error told before a failed turn completes, and the status its unfinished items end with, are not in the trace.
- Session.ClaudeSession.ToolResult: the item's display (diffs, plans, peers) is left out, and so are tails of other programs' output.
- Siblings.SiblingBlocks: says nothing of the order of a response's blocks where their comparison is inconsistent (some with an index against the file's order of others): the language leaves that sort open.
- WindowWalk.WindowWalkIsPart: for distinct uuids, parents earlier in the file and no compactions; across a compaction only the walk itself (`BranchWalk.Walk`) and what it shows (`SelectHistory.Select`) are covered.
- RecordReader.CachedEntry.Summarize: takes a head hash that matches to mean the same bytes, and an unterminated last line that parsed to be followed by blanks and a newline only.
- Catalog.Listing.List: takes stock to be sorted and its rows not to change during a walk, no stock row to tie with a Claude one, and a row's place not to change as it is shown, as for `createdAt`; the cache's age is one flag of each call.
- Sections.Manual.MoveInSection: a section of more than one page of threads is not modelled.
- Semver.CompareSemver: versions are what the pattern's groups hold; the pattern itself and the precision of large numbers are left out.
- LaunchConfig.MergedOverrides: reading an override's text as a value is left out, and so is a part named `__proto__`; the flat map keeps the order of a JavaScript Map.
- Ownership.Runtime.StopSocketOwner: the owner file, the platform's socket tables and process scans are the environment.
- Refresh.Scans.Refresh: a scan that fails is not modelled; awaiting a promise is a step of its own between which others may call.
- Switch markers' `startedAt`: paged and whole reads may differ there, so only ids are compared.
- Summary.Summarizer.Accept: does not hold a thread's goal, nor how texts are searched for commands, delegations and messages.
- The windowed projection as a whole (background ends, steers queued before the window): only windows and walks are covered.
- `Meta.prune`, plans, section names and how the file is saved.
- `withDaemonLock`: its steps read, check and remove apart, so exclusion rests on timing the code does not state.
- The process sweep, prewarming, retries and other timers, and interleavings inside an asynchronous handler.
- Websockets, child processes, the relay, shell and npm setup, and the mapping of tools and settings for display.
