# A verified model of DevSpace

DevSpace gives remote assistants a workspace on a developer's machine. It applies patches to
files, runs local agents in the background, keeps git worktrees for them, drains process
output, hands out OAuth tokens, and has a controller that works through a queue of tasks. This
project models the parts of it whose guarantees span several functions or many steps, and
proves those guarantees for all inputs and all runs.

| component | files |
|---|---|
| Legacy edits and writes, compiled to patch text, parsed back and applied | `Text`, `PatchSyntax`, `PatchParser`, `PatchRoundTrip`, `PatchCrs`, `PatchNormalForm`, `PatchGrammar`, `PatchWrapping`, `PatchEngine`, `HunkMeaning`, `LineEnds`, `LegacyWrites`, `WriteRoundTrip`, `EditArrival`, `EditMeaning`, `EditLanding`, `EditAcceptance`, `EditRefusals`, `EditGroups`, `EditPieces`, `EditRequests`, `EditCorrectness`, `EditExamples` |
| Staging a patch over the files on disk, and legacy calls end to end | `PatchStaging`, `PatchOutcome`, `LegacyToolCalls` |
| The pool of provider runtimes | `RuntimePool`, `RuntimePoolInvariant`, `RuntimePoolSafety`, `RuntimePoolOutcome` |
| Agents, turns and the daemon | `AgentStore`, `AgentManager`, `AgentDaemon`, `AgentOutcome` |
| Managed worktrees | `Worktrees`, `WorktreeRecovery`, `WorktreeOutcome` |
| OAuth codes and tokens | `OAuthStore`, `OAuthProvider`, `OAuthTraces`, `OAuthLifetimes` |
| The development controller | `HostController`, `HostControllerBounds`, `HostControllerOutcome` |
| The output buffer | `HeadTailBuffer` |

`Options` holds the one shared datatype. `dafny verify dfyconfig.toml` checks everything.

## How it is built

Code that changes things in place is a class or a method with loops, proved equal to a
specification function of the old state: the parser's cursor, the hunk splicer, the edit
compiler's loops, the staging overlay, the agent store, manager and daemon, the token store and
provider, the worktree host, the controller and the output buffer. What is promised is then
proved about those functions, as invariants kept by every step, over traces of any length, or
as round trips.

The runtime pool is a transition system: each run and each close has a program counter, each
step is the code between two awaits, and the provider may settle, fail or die at any point. The
daemon, the OAuth provider and the controller have a transition system as well, over the same
functions their classes are proved against.

Clocks, fresh ids, fresh tokens, git commit names, and what processes, git and GitHub answer
are parameters.

## What the proofs show about the code

- The comment at `src/mcp-legacy-codex-writes.ts:26-29` says that widening a unique old text to
  whole lines keeps it unique. For the lines as they are compiled the proofs bear this out: a
  group's lines occur nowhere before it in the file, except in a file of newlines only, matched
  whole, whose hunk lands one line early.
- The lines that arrive need not be those compiled: each loses one trailing CR
  (`src/apply-patch.ts:235`), exactly as `EditArrival.HunksArrive` and
  `EditRequests.RequestsArrive` say. A hunk that looks for a line ending in a CR then lands in
  its own place exactly when what that line became is no line of the rest of the file, nor one
  up to trailing blanks before its place (`EditLanding.SearchLands`). Otherwise another line is
  edited: `EditExamples.WrongLine` is an accepted request for which that happens.
- Widening can still gain or lose a newline. `EditCorrectness.EditsPreserveMeaning` gives the
  exact condition for every request whose hunks land, of any number of edits: no line of a new
  text ends in a CR, and every newline gained at one group is made good by one lost at another,
  with nothing but newlines between them. The files of a single newline and the request that
  empties the file are cases of their own, and a replaced first newline counts as one gained,
  since widening leaves it in place. `EditExamples` has accepted requests that change the wrong
  number of newlines, one that loses a CR, and one that is carried out although a line it removes
  ends in a CR.
- A line found only up to blanks is not left alone: a hunk's context lines are written back as
  the patch has them, so a hunk of context lines only may still change blanks at the ends of
  lines, and nothing else (`HunkMeaning.ContextStays`). A hunk whose lines were found as
  they stand is taken back by swapping its added and removed lines, if these are found in the same
  place (`HunkMeaning.SwappedUndoes`).
- A stopped turn with a failure only partly described looks different in the two views of
  `wait`; `AgentStore.ViewsAgree` says exactly when. The manager never produces one.
- A prune survives any two failing steps. Over two prunes a state is lost exactly when the first
  one's compensation left a clean checkout behind, whose commit is not the base, and the second
  gets as far as naming that commit in the recovery ref: `WorktreeRecovery.TwoPrunes`.

## Model

| member | source | states |
|---|---|---|
| PatchParser.ParsePatch | src/apply-patch.ts:57-77 | The cursor parser computes exactly the meaning the grammar gives a patch text, with the same error for every text it refuses |
| PatchParser.ParsePatchAction | src/apply-patch.ts:79-109 | One action and the lines left after it are those of the grammar; an environment header yields none |
| PatchParser.ParseAddFile | src/apply-patch.ts:111-140 | The loop over an added file's lines yields the grammar's content, with or without a final newline, and stops where it does |
| PatchParser.ParseUpdateFile | src/apply-patch.ts:142-184 | The loop over an update's lines yields the grammar's hunks, contexts and end-of-file marks |
| PatchParser.ParseMoveDestination | src/apply-patch.ts:186-191 | The destination is read exactly when the next line names one, and only then is a line consumed |
| PatchRoundTrip.DocumentLines | src/apply-patch.ts:234-246 | Any lines between the patch markers reach the parser one by one, each less one trailing CR |
| PatchRoundTrip.PrintThenParse | src/apply-patch.ts:57-256 | Printing and then parsing is the identity on every well-formed list of adds, deletes, moves and updates |
| PatchCrs.ParsedCrs | src/apply-patch.ts:57-256 | Printing what a patch parses to gives no more CRs than its normalised text has |
| PatchNormalForm.ParsedIsGood | src/apply-patch.ts:57-256 | Whatever a patch in LF or CR LF line ends parses to is nonempty and well formed, unless normalising leaves a CR before a newline |
| PatchNormalForm.RoundTripIff | src/apply-patch.ts:57-256 | The well-formed nonempty lists are exactly those that survive printing and parsing, whatever characters they hold |
| PatchNormalForm.ParseThenPrint | src/apply-patch.ts:57-256 | Printing what such a patch parses to and parsing it again changes nothing |
| PatchGrammar.ParsedExactly | src/apply-patch.ts:63-232 | The language of patches as a relation between lines and actions, in which no parser appears: the lines between the markers are parsed to a list of actions exactly when they mean it |
| PatchGrammar.PatchMeaning | src/apply-patch.ts:57-77 | A patch is accepted exactly when its first and last lines are the markers and the lines between them mean at least one action, and is read as just those actions |
| PatchGrammar.MarkersMissing | src/apply-patch.ts:59-76 | Which refusal a patch gets that lacks a marker, or has no action |
| PatchWrapping.PatchLinesMeaning | src/apply-patch.ts:234-246 | The lines a text comes to: each less one trailing CR, the first and last dropped exactly when they are a here-document around at least two lines |
| PatchWrapping.HereDocument | src/apply-patch.ts:234-246 | A patch in a here-document, quoted or not, means what it means without it |
| PatchWrapping.PrintedHereDocument | src/apply-patch.ts:234-246 | So printing, wrapping and parsing is the identity as well |
| PatchWrapping.BlanksAround | src/apply-patch.ts:248-256 | Blanks around a header, destination, hunk title or end-of-file marker change nothing it says |
| PatchEngine.SplitFileLines | src/apply-patch.ts:294-301 | Splitting a file gives the lines of its normalised text, with no empty line after a final newline |
| PatchEngine.SearchTier | src/apply-patch.ts:314-319 | The loop of one comparison tier finds the first match of that tier |
| PatchEngine.Search | src/apply-patch.ts:303-322 | The loop over the tiers finds the first tier's first match |
| PatchEngine.FindSequenceMeaning | src/apply-patch.ts:303-322 | The result is the least match of the first tier that has any, at or after the cursor, at the very end when asked for; -1 exactly when no tier matches |
| PatchEngine.SpliceHunk | src/apply-patch.ts:329-355 | One hunk's context search, line search, splice and cursor move |
| HunkMeaning.SidesAppend | src/apply-patch.ts:341-343 | Old and new lines are taken line by line, in order: both sides of two stretches are their sides one after the other |
| HunkMeaning.SidesOfLine | src/apply-patch.ts:341-343 | A context line is on both sides, a removed one on the old, an added one on the new |
| HunkMeaning.SwappedSides | src/apply-patch.ts:341-343 | With added and removed lines swapped, the sides are swapped |
| HunkMeaning.TierMeaning | src/apply-patch.ts:308-313 | Lines are the same for the three tiers when equal, equal but for blanks at the end, and equal but for blanks at either end |
| HunkMeaning.HunkApplied | src/apply-patch.ts:329-355 | Where the search for a hunk's lines begins, with a context on the line after it; where it lands, without old lines at the end of the file when marked so; and every line before and after it stays |
| HunkMeaning.HunkRefused | src/apply-patch.ts:333-352 | A hunk is refused exactly when its context, or from there on its old lines, match in no tier |
| HunkMeaning.ContextStays | src/apply-patch.ts:336-355 | A hunk of context lines only leaves every line as it was but for blanks at its ends, and exactly when found exactly |
| HunkMeaning.SwappedUndoes | src/apply-patch.ts:329-355 | A hunk found as it stands is taken back by the same hunk with added and removed lines swapped, when its search comes to the same place |
| PatchEngine.ApplyHunks | src/apply-patch.ts:324-359 | The loop over hunks computes the text that applying them one after another gives, or the first error |
| LineEnds.CrLfFile | src/apply-patch.ts:294-301 | A file is one of CR LF line ends exactly when normalising changes it |
| LineEnds.RewrittenBack | src/apply-patch.ts:357-358 | Rewriting LF as CR LF takes nothing away: normalising gives the text back |
| LineEnds.UpdatedStyle | src/apply-patch.ts:357-358 | What an update leaves ends in a newline, and has CR LF line ends throughout when the file it began with has any |
| LegacyWrites.LegacyWriteToPatch | src/mcp-legacy-codex-writes.ts:16-24 | The lines pushed make up the patch text of one added file with the normalised content |
| WriteRoundTrip.WriteMeaning | src/mcp-legacy-codex-writes.ts:16-24 | For every content, the patch of a write parses to one added file whose lines are the written ones less one trailing CR each |
| WriteRoundTrip.WriteRoundTrip | src/mcp-legacy-codex-writes.ts:16-24 | It parses to exactly the normalised content if and only if no line of it ends in a CR |
| WriteRoundTrip.CrFreeWrite | src/mcp-legacy-codex-writes.ts:16-24 | Every CR-free content, empty or not, terminated or not, arrives exactly |
| LegacyWrites.MatchEdits | src/mcp-legacy-codex-writes.ts:34-43 | The loop finds every edit's only occurrence, or the first edit's refusal |
| LegacyWrites.CheckOverlaps | src/mcp-legacy-codex-writes.ts:45-49 | The loop refuses exactly the first overlapping neighbours |
| LegacyWrites.GroupMatches | src/mcp-legacy-codex-writes.ts:51-63 | The loop widens matches to lines and merges those whose lines meet |
| LegacyWrites.AfterText | src/mcp-legacy-codex-writes.ts:66-73 | The loop over members builds the span with every member replaced |
| LegacyWrites.HunkText | src/mcp-legacy-codex-writes.ts:65-82 | A group's old and new lines, with the consumed final newline special-cased |
| LegacyWrites.LegacyEditToPatch | src/mcp-legacy-codex-writes.ts:30-85 | The whole compilation of an edit request to patch text, or its refusal |
| EditAcceptance.AcceptedIff | src/mcp-legacy-codex-writes.ts:30-49 | A request is accepted exactly when it is nonempty, every old text is nonempty and occurs exactly once, and no two occurrences share a character |
| EditAcceptance.AcceptedMatches | src/mcp-legacy-codex-writes.ts:34-49 | The sorted matches are exactly the edits' own, in order, apart, each at the only place its old text occurs |
| EditRefusals.RefusalMeaning | src/mcp-legacy-codex-writes.ts:30-49 | Why a request is refused, whenever it is: it is empty; or its first edit that does not occur once is empty, missing or ambiguous; or two edits overlap, the first that do in the file |
| EditGroups.NoEarlierWindow | src/mcp-legacy-codex-writes.ts:26-29 | The lines a group's hunk looks for occur nowhere before them in the file |
| EditGroups.NoWindowOnFirst | src/mcp-legacy-codex-writes.ts:53 | This holds as well when the match begins on the first newline and is widened past it, unless the file is newlines only |
| EditGroups.GroupsOfMatches | src/mcp-legacy-codex-writes.ts:51-63 | The groups hold exactly the matches, in order, on whole lines that do not touch |
| EditGroups.ReplacedGroups | src/mcp-legacy-codex-writes.ts:65-72 | Replacing group by group is replacing all matches at once |
| EditMeaning.SearchHits | src/apply-patch.ts:303-322 | Past the lines already dealt with, the exact tier finds lines whose text occurs no earlier exactly where they are |
| EditLanding.SearchLands | src/apply-patch.ts:303-322 | A search for lines that have lost their CRs finds their own place exactly when none of them had one, or what they became stands nowhere in the rest and, up to trailing blanks, nowhere before |
| EditLanding.HunkReplaces | src/apply-patch.ts:336-355 | A hunk that lands replaces its own lines, and the next search begins after them |
| EditLanding.ApplyGroups | src/apply-patch.ts:329-355 | Every hunk that lands, as it arrives, replaces its own window, whatever earlier hunks did to the lines, and the text that results is given exactly |
| EditLanding.ArrivedCrs | src/apply-patch.ts:235 | The text that arrives has as many CRs as the one compiled exactly when no new line loses one, and is then the same |
| EditPieces.EvenIff | src/mcp-legacy-codex-writes.ts:74-80 | Two texts that differ by newlines gained and lost between shared pieces are equal exactly when each gain is made good across newlines only |
| EditPieces.ObtainedAdjusted | src/apply-patch.ts:329-358 | The text the hunks leave, piece by piece |
| EditPieces.WantedIntended | src/mcp-legacy-codex-writes.ts:65-80 | The text asked for, over the same pieces |
| EditRequests.RequestsArrive | src/mcp-legacy-codex-writes.ts:30-85 | For every accepted request, CRs or not, the outcome is that of applying its hunks, each line less one trailing CR |
| EditRequests.CompiledHunks | src/apply-patch.ts:57-256 | Compiling to text and parsing back is invisible if and only if no hunk line ends in a CR |
| EditRequests.CrFreeSurvives | src/apply-patch.ts:234-246 | No hunk line ends in a CR for any CR-free file and CR-free new texts |
| EditCorrectness.HunksLeave | src/apply-patch.ts:324-359 | The file after all hunks of a request that lands, in its own line ends |
| EditCorrectness.ArrivedText | src/mcp-legacy-codex-writes.ts:74-80 | That text is the one asked for exactly when the request is faithful and no new line loses a CR |
| EditCorrectness.NewlinesLeave | src/mcp-legacy-codex-writes.ts:53 | In a file of newlines only the hunk lands on the first line and one newline stays behind |
| EditCorrectness.EditsPreserveMeaning | src/mcp-legacy-codex-writes.ts:30-85 | For a request whose hunks land, compile, parse and apply give the file with every old text replaced at once by its new text, plus a final newline if missing, in the file's own line ends, if and only if the request is faithful and no line of a new text ends in a CR |
| EditCorrectness.KeptOldLinesMeaning | src/mcp-legacy-codex-writes.ts:30-85 | When no line to be removed ends in a CR, they do so if and only if the request is faithful and no hunk line ends in a CR |
| EditCorrectness.KeptIsFaithful | src/mcp-legacy-codex-writes.ts:74-80 | A request is faithful when each group keeps its newline and the first newline is not replaced |
| EditCorrectness.OneGroupFaithful | src/mcp-legacy-codex-writes.ts:74-80 | For a single group this is also needed, but for a file emptied or of one newline |
| EditCorrectness.AfterFirstNewline | src/mcp-legacy-codex-writes.ts:53 | A single group after a replaced first newline is faithful exactly when its new text brings that newline back, or the file is emptied or of one newline |
| EditCorrectness.OneEditMeaning | src/mcp-legacy-codex-writes.ts:30-85 | For one edit whose hunk lands, wherever its match, the exact condition on its lines before and after |
| EditArrival.HunksArrive | src/apply-patch.ts:234-246 | Hunks that remove and add lines parse back with each line less one trailing CR |
| EditExamples.NewlineGained | src/mcp-legacy-codex-writes.ts:74-80 | A concrete accepted request that keeps a newline it was to remove |
| EditExamples.NewlineLost | src/mcp-legacy-codex-writes.ts:74-80 | A concrete accepted request that loses a newline it was to add |
| EditExamples.LastLineKept | src/apply-patch.ts:357 | A concrete accepted request that leaves an empty line at the end of the file |
| EditExamples.CrLost | src/apply-patch.ts:235 | A concrete accepted request that loses a CR |
| EditExamples.CrReplaced | src/apply-patch.ts:235 | A concrete accepted request that is carried out although the line it removes ends in a CR |
| EditExamples.WrongLine | src/apply-patch.ts:314-319 | A concrete accepted request that edits another line than its own |
| PatchStaging.Workspace.ReadStaged | src/apply-patch.ts:419-430 | A read through the overlay is a read of the disk the overlay stands for, and changes neither |
| PatchStaging.Workspace.StageAdd | src/apply-patch.ts:433-445 | An added file takes over the line ends of the file it replaces, and nothing else changes |
| PatchStaging.Workspace.StageMove | src/apply-patch.ts:457-466 | A move leaves the new text at the destination and nothing at the source, also when they are one place |
| PatchStaging.Workspace.StageAction | src/apply-patch.ts:432-472 | Staging an action does to the overlay what the action does to a disk |
| PatchStaging.Workspace.Commit | src/apply-patch.ts:474-480 | Writing and then deleting leaves exactly the overlay |
| PatchStaging.CommitInAnyOrder | src/apply-patch.ts:474-480 | Any order of the writes and deletions does |
| PatchStaging.Workspace.ApplyPatch | src/apply-patch.ts:413-485 | A patch either fails with the disk unchanged and the error its first failing action gives, or leaves exactly what applying its actions one after another leaves |
| PatchOutcome.PatchLeaves | src/apply-patch.ts:432-480 | At a place actions name, the last one that does decides: deleted or moved away, the file is gone; written, it holds that action's text |
| PatchOutcome.PatchSpares | src/apply-patch.ts:432-480 | Every place no action names is as it was |
| PatchOutcome.PatchReports | src/apply-patch.ts:432-472 | One report for every action, in order: added, updated, deleted, or moved with both paths |
| PatchOutcome.PatchFails | src/apply-patch.ts:419-472 | A patch fails exactly when one of its actions meets an obstacle on the disk the ones before it leave, and with that obstacle |
| LegacyToolCalls.EditOnDisk | src/mcp-legacy-codex-writes.ts:110-158 | A faithful edit call whose hunks land and whose new lines end in no CR changes its one file to the text asked for, and no other |
| LegacyToolCalls.WriteOnDisk | src/mcp-legacy-codex-writes.ts:110-158 | A write call leaves the content written, in the line ends of the file it replaces, and changes no other file |
| RuntimePoolInvariant.AcquireKeeps | src/local-agent-runtime-pool.ts:254-324 | The head of the acquire loop keeps the pool's invariant |
| RuntimePoolInvariant.GotExistingKeeps | src/local-agent-runtime-pool.ts:271-284 | So does taking up a runtime another run created |
| RuntimePoolInvariant.GotOwnKeeps | src/local-agent-runtime-pool.ts:324-330 | So does taking up one's own |
| RuntimePoolInvariant.ReserveKeeps | src/local-agent-runtime-pool.ts:109-125 | So does reserving a session |
| RuntimePoolInvariant.FinishKeeps | src/local-agent-runtime-pool.ts:193-207 | So does ending a run |
| RuntimePoolInvariant.CloserStepsKeep | src/local-agent-runtime-pool.ts:361-422 | So does every stage of a close |
| RuntimePoolInvariant.ClosePoolKeeps | src/local-agent-runtime-pool.ts:240-248 | So does closing the pool |
| RuntimePoolInvariant.NotCurrentIsClosing | src/local-agent-runtime-pool.ts:326-329 | A runtime created but no longer the pool's own is closing already |
| RuntimePoolInvariant.Reachable | src/local-agent-runtime-pool.ts:74-488 | Every state of every interleaving satisfies the invariant |
| RuntimePoolSafety.CloseSafety | src/local-agent-runtime-pool.ts:356-422 | Entries in the map are never closing; a runtime is asked to close at most once, and with runs on it only at shutdown or when dead |
| RuntimePoolSafety.CloseStepSafety | src/local-agent-runtime-pool.ts:106-107 | Over any step a closing entry stays closing and gains no run, and the call that closes its runtime is the first |
| RuntimePoolSafety.NoDeadlock | src/local-agent-runtime-pool.ts:478-481 | No close ever waits for a run; whatever a run or a close waits for, it can step, or the close at its entry can, or the provider owes an answer there |
| RuntimePoolSafety.SingleFlight | src/local-agent-runtime-pool.ts:254-323 | Two entries of one key are never both open |
| RuntimePoolSafety.NoLeak | src/local-agent-runtime-pool.ts:286-330 | A created runtime is in the map exactly while its close has not started |
| RuntimePoolSafety.ShutdownLeavesNothing | src/local-agent-runtime-pool.ts:240-248 | After close the map stays empty for good, and when all has settled every runtime ever created has been closed exactly once |
| RuntimePoolSafety.SessionAccounting | src/local-agent-runtime-pool.ts:108-125 | Until its close forgets them, an entry's session counts and run count are exactly the runs that hold them |
| RuntimePoolSafety.FinishTakesOne | src/local-agent-runtime-pool.ts:193-200 | The lower bound of zero on a session's count never acts |
| RuntimePoolSafety.ReleasesUnheld | src/local-agent-runtime-pool.ts:424-476 | A living provider is never asked to release a session that a run holds, nor does a run take one being released |
| RuntimePoolOutcome.EndsForReason | src/local-agent-runtime-pool.ts:74-330 | A run begins to end exactly for one of the reasons listed, by a step of its own |
| RuntimePoolOutcome.DoneWithoutReturning | src/local-agent-runtime-pool.ts:74-330 | In every trace a run that is done without returning from its provider was refused by a step in that trace: pool closed, creation failed, entry closing, close failed, or dead at the second attempt |
| RuntimePoolOutcome.GetsItsRuntime | src/local-agent-runtime-pool.ts:271-330 | A run whose runtime is created, current and alive is counted on it at its next step, its own or another's, and nothing else changes |
| RuntimePoolOutcome.AcquireChooses | src/local-agent-runtime-pool.ts:260-323 | A run waits for the entry of its key, creates one exactly when there is none and the pool is open, and closes one only when it is dead |
| RuntimePoolOutcome.DeadIsRetried | src/local-agent-runtime-pool.ts:271-284 | A runtime found dead is off the map and closing; its creator tries once more, any other run again |
| RuntimePoolOutcome.RetriesUnlessFailed | src/local-agent-runtime-pool.ts:282-284 | A run that waited for a dead runtime's close acquires again exactly when that close, wherever in the trace it ended, went well or its failure is passed over at shutdown |
| RuntimePoolOutcome.AliveUntilDeath | src/local-agent-runtime-pool.ts:265-281 | A runtime is taken for alive exactly while the provider has not said otherwise |
| RuntimePoolOutcome.InputHeld | src/local-agent-runtime-pool.ts:135-137 | At every point of every trace a run at its provider holds the session it was asked to go on with |
| RuntimePoolOutcome.OutputHeld | src/local-agent-runtime-pool.ts:161-170 | The session a run returns with is held with its next step, unless its entry is closing |
| RuntimePoolOutcome.HeldUntilDone | src/local-agent-runtime-pool.ts:109-125 | A run gives up its sessions only when it is done |
| RuntimePoolOutcome.CloseAsks | src/local-agent-runtime-pool.ts:361-442 | What the first stage of a close waits for and asks of the provider, by its reason |
| RuntimePoolOutcome.CrashIsClosed | src/local-agent-runtime-pool.ts:138-159 | A run that fails on a dead runtime has it closed, and waits for that |
| RuntimePoolOutcome.EvictionCloses | src/local-agent-runtime-pool.ts:228-238 | An idle entry evicted is off the map and closing |
| RuntimePoolOutcome.IdleIsReleased | src/local-agent-runtime-pool.ts:424-476 | An idle session, which no run holds, is asked for and forgotten once released, unless a run has taken it meanwhile |
| RuntimePoolOutcome.ClosePoolCloses | src/local-agent-runtime-pool.ts:240-248 | Closing the pool empties the map, lets no run start, and starts the close of every entry |
| AgentStore.LocalAgentStore.BeginTurn | src/local-agent-store.ts:281-311 | Both rows of a new turn, or a refusal that changes nothing |
| AgentStore.LocalAgentStore.FinishTurn | src/local-agent-store.ts:320-379 | Both rows of a settled turn, or a refusal that changes nothing |
| AgentStore.LocalAgentStore.Update | src/local-agent-store.ts:226-272 | One agent's row rewritten, if there is one |
| AgentStore.LocalAgentStore.GetLatestTurn | src/local-agent-store.ts:402-407 | The agent's newest turn |
| AgentStore.LocalAgentStore.ReconcileActiveRuns | src/local-agent-store.ts:422-442 | Everything left running or starting is failed, and nothing else changes |
| AgentStore.RunningMeaning | src/local-agent-store.ts:281-379 | In consistent tables an agent is running exactly when one of its turns is, its only running one and its newest |
| AgentStore.BegunKeeps | src/local-agent-store.ts:281-311 | A turn begins exactly for a known agent not running, keeps the tables consistent, and is then the newest |
| AgentStore.FinishedKeeps | src/local-agent-store.ts:320-379 | A turn finishes exactly when it is the agent's and running, settled turns never change, and a known session stays known |
| AgentStore.ReconciledKeeps | src/local-agent-store.ts:422-442 | After a restart nothing runs, the tables stay consistent, settled turns and sessions stay |
| AgentStore.ViewsAgree | src/local-agent-manager.ts:704-771 | The two views of a newest turn are equal exactly unless it was stopped with a failure partly described |
| AgentManager.LocalAgentManager.Create | src/local-agent-manager.ts:157-165 | A start creates its agent, with no turn yet, in a step of its own |
| AgentManager.LocalAgentManager.Begin | src/local-agent-manager.ts:293-323 | A turn is begun and tracked, or refused with nothing changed |
| AgentManager.LocalAgentManager.OnSessionId | src/local-agent-manager.ts:379-386 | A reported session is stored unless it is the one known |
| AgentManager.LocalAgentManager.EndRun | src/local-agent-manager.ts:388-432 | A turn's end settles its rows and stops tracking it |
| AgentManager.LocalAgentManager.CaptureTurns | src/local-agent-manager.ts:215-240 | Wait captures each agent's newest turn; in a state the invariant allows it fails only for an unknown agent |
| AgentManager.LocalAgentManager.CollectResults | src/local-agent-manager.ts:242-260 | Each result is that of the turn captured |
| AgentManager.ActiveMeaning | src/local-agent-manager.ts:293-432 | The tracked turns are exactly the running ones, each its agent's newest |
| AgentManager.RunRecords | src/local-agent-manager.ts:388-460 | What the provider answered is what both tables record, and the session it reported is kept |
| AgentManager.WaitIsFinal | src/local-agent-manager.ts:242-260 | A result that is not "still running" is the same however much later it is asked for |
| AgentDaemon.LocalAgentDaemon.AdmitTurnRequest | src/local-agent-daemon.ts:317-324 | A start or continue request is counted exactly when the daemon is accepting |
| AgentDaemon.LocalAgentDaemon.Stop | src/local-agent-daemon.ts:352-369 | An idle stop succeeds exactly when nothing is counted and no turn is active, and otherwise leaves the daemon accepting |
| AgentDaemon.TurnLifecycle | src/local-agent-manager.ts:293-432 | In every state of every run, crashes and restarts included, an agent is running exactly when it has an active turn, its newest and its only running one |
| AgentDaemon.History | src/local-agent-store.ts:281-379 | Over any stretch of any run settled turns never change and a known session stays known |
| AgentDaemon.WaitViewsAgree | src/local-agent-manager.ts:704-771 | In every reachable state the two views of a newest turn are equal |
| AgentDaemon.IdleReplacementIsSafe | src/local-agent-daemon.ts:308-373 | After an idle stop succeeds, no turn is running, no request is in flight, and none ever begins one in that daemon |
| AgentOutcome.WaitSaysRunning | src/local-agent-manager.ts:704-708 | Over any trace, a turn begun is waited for as running until its run ends or its daemon is replaced, and as timed out exactly when it was |
| AgentOutcome.WaitSaysHowItEnded | src/local-agent-manager.ts:704-771 | From then on and for good it is reported as that run ended: its answer, its failure, or a retryable DAEMON_UNAVAILABLE after a restart |
| AgentOutcome.WaitSaysStarting | src/local-agent-manager.ts:725-730 | An agent whose start has not come to its turn is waited for as running |
| AgentOutcome.WaitSaysUnavailable | src/local-agent-store.ts:422-442 | If its daemon died before that, it is reported as failed and retryable |
| AgentOutcome.FinishedSays | src/local-agent-manager.ts:704-724 | What wait says of a finished turn is how it was finished, a stop with a failure only when part of one was given |
| AgentOutcome.StepSession | src/local-agent-manager.ts:379-432 | The session an agent continues in is the one last reported for it |
| AgentOutcome.StepSpares | src/local-agent-store.ts:281-379 | A step changes the row and the turns of no other agent |
| AgentOutcome.StopMeaning | src/local-agent-daemon.ts:352-369 | A stop is refused, changing nothing, exactly when it is one for idleness and a request is in flight or an agent running; any other is carried out |
| Worktrees.Host.RestoreManagedWorktree | src/git-worktrees.ts:182-244 | The restore, step by step, whichever steps fail |
| Worktrees.Host.RestorePrunedWorkspace | src/workspaces.ts:363-411 | Restore, reactivate, or take the restored worktree away again |
| Worktrees.Host.CleanupManagedWorktree | src/git-worktrees.ts:280-377 | The prune with its compensation, step by step, whichever steps fail |
| Worktrees.Host.CleanupManagedWorktrees | src/git-worktrees.ts:140-180 | Every stale session is pruned in turn, and each list holds in order the sessions whose prune came to its outcome |
| WorktreeRecovery.RecordedLeads | src/git-worktrees.ts:307-328 | The recovery commit leads back to HEAD, index and tracked files as they were |
| WorktreeRecovery.RestoreMeaning | src/git-worktrees.ts:182-244 | What a restore leaves on disk, exactly, whichever of its steps fail |
| WorktreeRecovery.PruneLosesNothing | src/git-worktrees.ts:280-377 | Whichever steps fail, the tracked state is on disk, in the recovery ref, or is the base commit |
| WorktreeRecovery.PruneSettles | src/git-worktrees.ts:347-377 | The session says where its state is, exactly unless marking, restoring, and the second marking or the removal of a partial worktree all fail |
| WorktreeRecovery.TwoFaultsAreHarmless | src/git-worktrees.ts:280-377 | Any two failing steps in one prune do no harm |
| WorktreeRecovery.ReopenMeaning | src/workspaces.ts:363-411 | Reopening succeeds exactly when no step it needs fails, gives back the exact state, and otherwise loses nothing |
| WorktreeRecovery.PruneThenReopen | src/git-worktrees.ts:182-377 | Prune and then reopen gives back HEAD commit, index and tracked files, and the session as it was |
| WorktreeRecovery.TwoPrunes | src/git-worktrees.ts:280-377 | Over two prunes, whichever steps fail, the state stays recoverable exactly unless the first leaves a partial checkout, not of the base commit, and the second gets as far as the recovery ref |
| WorktreeRecovery.SecondPruneForgets | src/git-worktrees.ts:320-328 | After a prune whose compensation failed altogether, with HEAD not the base, a second prune in which nothing fails makes the tracked changes unrecoverable |
| WorktreeRecovery.CleanupLosesNothing | src/git-worktrees.ts:140-180 | A cleanup of any number of sessions, any of whose steps may fail, loses none of their states |
| WorktreeOutcome.PruneReports | src/git-worktrees.ts:280-377 | Removed, missing, skipped or failed: each reported exactly under its condition on the worktree and the steps |
| WorktreeOutcome.PruneLeaves | src/git-worktrees.ts:280-377 | What each of these outcomes leaves of worktrees, refs and sessions |
| WorktreeOutcome.KindMeaning | src/git-worktrees.ts:307-322 | A stash is recorded exactly for a worktree unlike its HEAD commit, and nothing exactly for one like its base |
| WorktreeOutcome.RestoreRefused | src/git-worktrees.ts:187-217 | A restore with nothing to restore to, or no place to restore it, changes nothing |
| WorktreeOutcome.CleanupReports | src/git-worktrees.ts:140-180 | In a cleanup of any number of sessions each is filed under what its prune would have come to had it been the only one |
| WorktreeOutcome.HavingMeaning | src/git-worktrees.ts:156-177 | A list of the cleanup holds exactly the sessions that came to its outcome |
| OAuthStore.SqliteOAuthStore.SaveTokenPair | src/oauth-store.ts:148-174 | Both tokens are saved and the used one's expiry brought forward, or nothing changes |
| OAuthProvider.SingleUserOAuthProvider.Authorize | src/oauth-provider.ts:136-187 | An approved request leaves a code with its parameters, or is refused for its resource or scopes |
| OAuthProvider.SingleUserOAuthProvider.ExchangeAuthorizationCode | src/oauth-provider.ts:197-214 | A code is used up for tokens with its scopes and resource, or refused with nothing changed |
| OAuthProvider.SingleUserOAuthProvider.ExchangeRefreshToken | src/oauth-provider.ts:216-246 | A refresh issues a pair and marks the token used, or is refused with nothing changed |
| OAuthProvider.SingleUserOAuthProvider.IssueTokens | src/oauth-provider.ts:291-339 | The pair saved, with its lifetimes, and the grace given to the token used |
| OAuthProvider.SingleUserOAuthProvider.VerifyAccessToken | src/oauth-provider.ts:248-261 | A token is good exactly when it is there and not expired |
| OAuthTraces.TokensDescend | src/oauth-provider.ts:216-246 | Every token, however many refreshes on, keeps its code's client and normalised resource, with scopes within the code's |
| OAuthTraces.CodeExchangedOnce | src/oauth-provider.ts:204-213 | A code is exchanged at most once |
| OAuthTraces.ExchangeFollowsApproval | src/oauth-provider.ts:176-213 | An exchange follows an approval of that code for that client by at most five minutes, for the same redirect URI |
| OAuthTraces.DeadlineFixedByFirstUse | src/oauth-store.ts:153-166 | The first use of a refresh token fixes its deadline at the earlier of its expiry and 900 seconds on; no later use moves it or succeeds after it |
| OAuthTraces.RevokedForGood | src/oauth-provider.ts:263-267 | A revoked token is never good again |
| OAuthLifetimes.PairIssued | src/oauth-provider.ts:291-339 | Each token of a pair ends its own lifetime after the issue, and both carry the client, scopes and resource granted |
| OAuthLifetimes.AccessLifetime | src/oauth-provider.ts:248-261 | Over any trace an access token is accepted exactly while it is not revoked and its lifetime since the issue is not over |
| OAuthLifetimes.RefreshLifetime | src/oauth-provider.ts:216-246 | The first use of a refresh token is granted exactly when it is not revoked, the request suits it, and its lifetime since the issue is not over |
| OAuthLifetimes.RefreshRetried | src/oauth-store.ts:153-166 | A later use exactly when, besides, it comes within 900 seconds of the first, however often it is used between |
| OAuthLifetimes.RefreshIff | src/oauth-provider.ts:216-246 | When a refresh is granted, and when it is denied for its scopes |
| OAuthLifetimes.ApprovedIff | src/oauth-provider.ts:136-180 | An approval leaves its code exactly for a resource served here and scopes offered here |
| OAuthLifetimes.CodeLifetime | src/oauth-provider.ts:197-214 | A code is good exactly once, for its client, for five minutes, without a restart between, and for its own redirect URI and resource when named |
| HostController.Controller.PollPrCi | scripts/host-development-controller.py:375-477 | One poll, branch by branch |
| HostController.Controller.RepairCiFailure | scripts/host-development-controller.py:558-619 | One repair, branch by branch, the workers it runs, and whether it was pushed |
| HostController.Controller.WorkOn | scripts/host-development-controller.py:728-804 | The loop of worker attempts on a queued task with its publication, and how many it runs |
| HostController.Controller.Step | scripts/host-development-controller.py:687-805 | One turn of the loop: a repair, which ends the turn only if it fails, then a poll, then new work unless the poll came to an end |
| HostController.CountChecks | scripts/host-development-controller.py:448-451 | The counts say whether any check failed and whether any is pending |
| HostControllerBounds.WorkIsBounded | scripts/host-development-controller.py:687-805 | Whatever arrives and is answered, a task uses at most three workers and three repair workers, and at most (repairs + 1) × (max_polls + 1) polls |
| HostControllerBounds.PassedMeansPassed | scripts/host-development-controller.py:426-477 | A task reaches a passed review only in a turn that ended with a poll of it, from a nonempty list of checks that are all objects, none with a failing or pending word and each with a passing one |
| HostControllerBounds.TurnLowers | scripts/host-development-controller.py:687-805 | Every turn that does anything lowers a measure of what is left to do, and a turn does nothing exactly when nothing is left |
| HostControllerBounds.RunUntilIdle | scripts/host-development-controller.py:687-805 | Left with the tasks it has, the loop ends with none to repair, poll or work on, within that measure of turns |
| HostControllerOutcome.PollMeaning | scripts/host-development-controller.py:402-477 | What a poll comes to, by the words GitHub reported: one failing word and the task is repaired or blocked, all checks passing and it is up for review, anything else and it is polled again |
| HostControllerOutcome.PollBlocked | scripts/host-development-controller.py:375-413 | Which block a poll gives that may not ask GitHub |
| HostControllerOutcome.PollCounts | scripts/host-development-controller.py:393-401 | Every other poll is counted, and the first after publication starts the clock |
| HostControllerOutcome.RepairMeaning | scripts/host-development-controller.py:558-619 | A repair runs and counts a worker exactly when it is allowed, and is pushed exactly when worker, verification and push succeed |
| HostControllerOutcome.AttemptsMeaning | scripts/host-development-controller.py:728-804 | Attempts are made until one is not in vain or none is left, and the last one gives the status |
| HostControllerOutcome.WorkMeaning | scripts/host-development-controller.py:728-804 | A queued task reaches review or a published pull request exactly when nothing stood in its way and its last attempt succeeded and was verified |
| HostControllerOutcome.TurnOrder | scripts/host-development-controller.py:687-727 | The first task to repair comes first, and only a pushed repair lets the turn go on |
| HostControllerOutcome.PollTurnOrder | scripts/host-development-controller.py:700-727 | Then the first task to poll; new work follows only when there is none or its checks are pending |
| HostControllerOutcome.NextDeed | scripts/host-development-controller.py:687-727 | What is done to a task next after a poll, a repair or its work, or that nothing is |
| HostControllerOutcome.TurnSpares | scripts/host-development-controller.py:687-805 | A turn changes only the tasks it does something to |
| HostControllerOutcome.LimitsMeaning | scripts/host-development-controller.py:28-33 | The default and the bounds of polls, time, repairs and workers |
| HeadTailBuffer.Buffer.Append | src/process-sessions.ts:152-172 | The buffer stays the whole stream, or exactly its first ceil(max/2) and last floor(max/2) characters |
| HeadTailBuffer.Buffer.Drain | src/process-sessions.ts:178-196 | What is drained is given by the stream alone, and the stream begins anew |
| HeadTailBuffer.TailOfAppend | src/process-sessions.ts:171 | The kept tail is enough to compute the next one |
| HeadTailBuffer.UntruncatedIsExact | src/process-sessions.ts:178-196 | A drain is untruncated exactly when the stream fits buffer and limit, and is then the stream itself |
| HeadTailBuffer.WithinLimit | src/process-sessions.ts:199-211 | A drain stays within its limit exactly when the limit is at least 26 or nothing had to be cut |
| HeadTailBuffer.OnlyMarker | src/process-sessions.ts:199-211 | Under a smaller limit a cut drain is the words "output truncated" alone |
| HeadTailBuffer.DecimalMeaning | src/process-sessions.ts:136-139 | The count of omitted characters is written as the digits that stand for it |
| HeadTailBuffer.ShowsBothEnds | src/process-sessions.ts:178-211 | A drain that says "truncated" under a limit of 26 or more begins and ends as the stream does, with as many characters as buffer and limit allow; its exact text is given unless the limit cuts into the words for what the buffer dropped |

## Left out

- EditCorrectness.EditsPreserveMeaning: asks that every hunk land and that a header line can carry the path. When a hunk lands on another line, `EditRequests.RequestsArrive` still gives the outcome exactly, but no condition short of comparing the two texts is given: an edit that changes nothing, say, can land elsewhere and do no harm.
- PatchNormalForm.ParsedIsGood: says nothing of a text in which a CR stands before a CR LF; a line that keeps a CR at its end is not well formed.
- RuntimePool: a successful acquire and the count of its run are one step, since only promise resolution lies between them; an eviction in that gap is not modelled.
- RuntimePool: a provider is taken to wait for each session callback before it reports another session or ends the run, and a runtime once dead stays dead. Idle times are arbitrary, so evictions may happen at any point.
- AgentManager: store operations are taken to succeed; checks before a turn begins (workspace, profiles, drivers, the manager's own accepting flag) only ever refuse and appear as requests that fail.
- AgentStore: timestamps, prompts, models, workspaces and profiles are not part of the rows, and list queries are left out.
- AgentManager.LocalAgentManager.CaptureTurns: takes the ids as they are; the removal of duplicate ids and the waiting itself (time-outs, aborts) are not modelled.
- AgentDaemon: sockets, authentication and the lock file are left out, and so is starting a daemon again in the same process.
- Worktrees: git is commits, refs and worktrees with a HEAD, an index and tracked files; ignored files, branch names, submodules and conflicts are not modelled. The checks on paths are one step that may fail. Commit names are taken to be fresh.
- WorktreeRecovery.TwoPrunes: is about two prunes of one session; a third after two that went wrong is not characterised.
- Worktrees: the cache of open workspaces, conversation bindings and the sharing of one pending restore between callers are left out.
- PatchStaging: paths are opaque and resolved by a function, so two paths name one file only if they resolve to one place. File modes, the umask, directories made for new files, and failures while committing are left out, and so are the unified diff and its line counts.
- PatchSyntax: strings are sequences of Unicode scalar values where JavaScript has UTF-16 units; error values carry the path or line they concern, not the message text.
- HeadTailBuffer: a character is a Unicode scalar value, so a surrogate pair split between two appends is not modelled.
- OAuthProvider: URL parsing, resource checks, password comparison, PKCE, hashing and client registration are parameters or left out; tokens are taken to be fresh and distinct.
- HostController: a controller crash, an exception in a repair worker, edits to the queue file by hand, and the once flag are left out. Words of a check are taken as already stripped and in lower case; the loop of `drain_inbox` is the arrival of a task.
- The command line, HTTP and MCP registration, process spawning, provider adapters, artifacts, skills and review checkpoints are left out.
