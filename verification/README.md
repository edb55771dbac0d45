# PiCode, modelled in Dafny

PiCode is a coding-agent daemon with a Windows desktop shell. Its logic is mostly glue, but a dozen
small cores decide things a user would notice: what a save does to a file they also edit by hand,
whether a schedule fires twice, whether a web page is given back as it was found. This project models
those cores and proves what they promise, for every input and every run.

| modules | models | main results |
|---|---|---|
| `WslConfig`, `WslLines`, `WslEditor`, `WslLaws`, `WslTheorems`, `WslCompose`, `WslSteady`, `WslFile`, `WslPlacement`, `WslLetter`, `WslTable`, `WslExamples` | the `.wslconfig` editor | put-get, frame, where new keys land, order and batching never show, and exactly when saving twice is saving once |
| `Scheduler`, `SchedulerLaws`, `SchedulerRuns`, `SchedulerTicks` | the automations engine | at most once, never early, exactly who fires in a tick, exactly what the catch-up loop finds, and exactly when the listed next fire is kept |
| `Annotate`, `AnnotateLaws`, `AnnotateLocks`, `AnnotateNotes`, `AnnotateRuns` | the in-page annotator | the page comes back, exactly which picks keep it so, one draft at a time, notes are never lost, and exactly when a preview is |
| `Permissions`, `PermissionAsks`, `PermissionVerdicts` | site permissions and held asks | what was decided is what requests get; every ask is completed exactly once; exactly when a remembered answer stands |
| `EventRing` | the bounded ring of a tab's events | pollers read a subsequence without repeats and miss exactly what was dropped |
| `DeskLog`, `DeskJobs`, `Desk` | the computer desk's keyboard and mouse jobs | the log of a job that succeeds shows what was asked, typed text reads back; nothing stays held |
| `Geometry` | screenshot frames, fit and zoom | points stay inside, exactly which pixels and scales survive a round trip, nested zooms |
| `Update` | the two-binary update | both or neither, and each original survives every step |
| `Rebind` | the serving loop | exactly one server is live, and exactly when what clients read goes stale |
| `DockerGroups`, `Ordering` | container grouping | each container once, counts add up, independent of map order |
| `Payload` | the waiting page's JSON | reads back, safe to splice |
| `Base64` | the screenshot encoder | the reader of RFC 4648 accepts exactly what it writes |

`Text` and `Wrappers` hold shared vocabulary. Code that changes state in place is a class or a method
proved equal to a specification function; the laws are lemmas about that function.

Where the code and its documentation disagree, the model follows the code:

- `WslEdit`'s comment (desktop-shell/src/wslconfig.rs:47) says an empty string removes a key; the code
  writes `key=` (`WslExamples.AnEmptyValueStays`). Only a missing value removes.
- A removal is not idempotent when the key has copies in two WSL sections: the second save moves on to
  the other copy (`WslExamples.ARemovalMovesOn`; `WslSteady.SavingTwice` gives the exact condition).
- The next fire shown for a schedule whose rule has uneven intervals need not be kept
  (`SchedulerRuns.TheEngineBreaksAPromise`; `PromiseIsKeptExactly` says when it is).
- Picking an element while it shows another annotation's preview can leave that preview on the page for good
  (`AnnotateRuns.APreviewIsPickedUp`; `AnnotateLocks.PickIsSafeExactly` says which picks are safe), and taking a
  proposal back can wipe another's (`AnnotateRuns.APreviewIsWiped`).
- Restoring the old listener after a failed move may land on another port without telling clients
  (`Rebind.AMoveLeavesClientsBehind`; `Rebind.ShownStaysTrue` is exact).
- A remembered answer for an ask whose origin is blank is filed under every site: it decides other sites'
  requests too (`PermissionAsks.AnswerReachesOthers`) and may be asked again
  (`PermissionAsks.ABlankOriginIsAskedAgain`).

## Model

| member | source | states |
|---|---|---|
| WslEditor.ParseOwned | desktop-shell/src/lib.rs:94-117 | the section-tracking loop computes the last-wins reading of the file's entries, owned keys of WSL sections only |
| WslEditor.FindTarget | desktop-shell/src/lib.rs:138-154 | the target closure is the documented section when a copy is there, else the first copy's section in the map's walk, else the documented one |
| WslEditor.RewriteLines | desktop-shell/src/lib.rs:157-181 | the first pass replaces, drops or copies each line as its section and key say, and marks exactly the edits that met a line |
| WslEditor.CollectMissing | desktop-shell/src/lib.rs:182-190 | the append phase takes exactly the unmarked edits that carry a value, in order |
| WslEditor.AppendKeys | desktop-shell/src/lib.rs:200-233 | a home's keys go after the last non-blank line of its first block, or into a new section at the end |
| WslPlacement.GroupLands | desktop-shell/src/lib.rs:202-221 | in a section that exists the keys go in as one piece, under its first header or after a line that is not blank, and what follows them before the next header is blank |
| WslPlacement.SectionOpens | desktop-shell/src/lib.rs:222-232 | a section that does not exist is opened at the end, after exactly one blank line if the last line is not blank, with its keys right under it |
| WslPlacement.GroupInOrder | desktop-shell/src/lib.rs:200-201 | a section's new keys are the missing ones that go there, in the order asked for |
| WslPlacement.NewKeysStand | desktop-shell/src/lib.rs:191-234 | in the saved file, whatever other sections gained, each section's new keys stand together at the end of its first block |
| WslEditor.Edit | desktop-shell/src/lib.rs:128-241 | the editor computes the specification's text, trailing newline and empty file included |
| WslPlacement.LastNewline | desktop-shell/src/lib.rs:236-240 | a text that ends in a newline still does, an empty one that gains lines gains one, any other gains none |
| WslTheorems.TargetIsPlace | desktop-shell/src/lib.rs:132-154 | for any walk over the present keys the target is one place that only the file's entries decide |
| WslTheorems.PlannedIsTargeted | desktop-shell/src/lib.rs:132-154 | every edit the code plans is aimed at that place |
| WslTheorems.ReadAfterEdit | desktop-shell/src/lib.rs:128-241 | the reading of every section and key after an edit, in full: set, removed, added or untouched |
| WslTheorems.PutGet | desktop-shell/src/lib.rs:94-241 | after an edit each spelling of its key in its target section reads the trimmed value, at least one does, and a removed key reads in none |
| WslTheorems.ReadFrame | desktop-shell/src/lib.rs:94-241 | an entry no edit is aimed at reads exactly as before |
| WslTheorems.ShownAfterEdit | desktop-shell/src/wslconfig.rs:63-80 | the settings window's choice among copies is the value just set, in its target section; after a removal it shows a value exactly when another section still has one |
| WslCompose.OrderNeverShows | desktop-shell/src/lib.rs:128-241 | edits of distinct keys commute: neither their order nor the map's walk shows in what is read |
| WslCompose.BatchIsSequence | desktop-shell/src/lib.rs:128-241 | one save with all edits reads like two saves that split them, the second planned on the first one's file |
| WslSteady.SavingTwice | desktop-shell/src/lib.rs:128-241 | a second identical save changes no line if and only if no removed key has a copy in the other section |
| WslSteady.SavingTwiceSameText | desktop-shell/src/lib.rs:128-241 | with no copy left behind and no carriage returns before line ends, a second identical save changes no character, whether or not the file ends in a newline |
| WslLetter.SavingTwiceExactly | desktop-shell/src/lib.rs:128-241 | in a file that ends in a newline a second identical save changes no character if and only if no removed key has a copy in the other section and no line left alone ends in a stray carriage return |
| WslExamples.ARemovalMovesOn | desktop-shell/src/lib.rs:128-241 | with the shipped table, removing memory from a file that has it in both sections takes two saves |
| WslExamples.AnEmptyValueStays | desktop-shell/src/lib.rs:170-175 | with the shipped table, setting memory to nothing leaves `memory=` in the file |
| WslFile.LineFrame | desktop-shell/src/lib.rs:157-234 | lines no edit is aimed at survive unchanged and in order, rewritten lines stay in their places among them, and every other line is one the append phase wrote |
| WslFile.SavedTextReads | desktop-shell/src/lib.rs:94-241 | the text written reads like the lines it was made of |
| WslFile.SavedIsRead | desktop-shell/src/lib.rs:94-241 | put-get from text to text, for single-line values: each spelling in the target section reads the trimmed value and one exists, none after a removal |
| WslFile.SavedIsShown | desktop-shell/src/wslconfig.rs:63-80 | the window shows what was saved, from text to text |
| WslFile.OthersReadAsBefore | desktop-shell/src/lib.rs:94-241 | the frame from text to text |
| WslTable.TableIsFirstRow | desktop-shell/src/lib.rs:81-89 | lookup by scanning rows finds a key exactly when some row has it, and gives the first such row's section |
| WslTable.OwnedTableIsValid | desktop-shell/src/lib.rs:40-79 | the shipped table meets what every law above asks of a table |
| Scheduler.Jitter | internal/automate/engine.go:153-165 | the jitter is under 30 minutes, and zero or under half the interval |
| SchedulerLaws.JitterReaches | internal/automate/engine.go:153-165 | every delay below half an hour and half the interval is some schedule's |
| Scheduler.FindDue | internal/automate/engine.go:200-227 | the catch-up loop with its cap computes the slot and trigger of the specification |
| Scheduler.Engine.RunSchedules | internal/automate/engine.go:110-147 | the loop over one automation's schedules, stamping then firing, is a fold of independent turns |
| Scheduler.Engine.RunTick | internal/automate/engine.go:110-147 | a tick is that fold over the enabled automations |
| SchedulerTicks.OnlyListedOnesFire | internal/automate/engine.go:110-147 | whatever a tick fires is an enabled schedule of a listed automation that is switched on, under its own id, hash and rule, and stamped |
| SchedulerTicks.DueOnesFireOnce | internal/automate/engine.go:110-147 | such a schedule fires exactly once, for the slot that is due, if and only if it is enabled, has a rule, is due and can be stamped; otherwise it is left as it was |
| SchedulerTicks.OthersAreLeftAlone | internal/automate/engine.go:122-125 | a schedule found only under automations switched off keeps its last fire and its firings |
| SchedulerTicks.SwitchedOffFiresNothing | internal/automate/engine.go:122-125 | over any run, an automation switched off all along fires nothing |
| SchedulerLaws.WalkFindsLatest | internal/automate/engine.go:215-226 | the loop finds the latest missed slot if and only if no wait exceeds the horizon and at most the cap were missed |
| SchedulerLaws.WalkStopsAtTheCap | internal/automate/engine.go:215-226 | past the cap it stops at exactly the capth missed slot |
| SchedulerLaws.DueIsLatest | internal/automate/engine.go:200-227 | what is due is the greatest match in (last, now - jitter] if and only if that minute itself matches or the catch-up can reach it |
| SchedulerLaws.DueIsNeverEarly | internal/automate/engine.go:200-227 | a due slot matches, lies after the last fire and is never early; it is on schedule exactly on time |
| SchedulerLaws.StampDrains | internal/automate/engine.go:110-147 | after a stamp the same minute fires nothing more, or the backlog shrank by exactly the cap |
| SchedulerLaws.NextFireIsFirst | internal/automate/engine.go:180-187 | the listed fire is the least later minute whose jittered slot matches |
| SchedulerLaws.PromiseIsKept | internal/automate/engine.go:180-227 | from a drained state nothing is due before the listed minute and its slot is due then |
| SchedulerLaws.JitterChangesOnce | internal/automate/engine.go:153-187 | from now to the listed minute the jitter is steady if and only if it is, at that minute, what it was |
| SchedulerLaws.PromiseNeedsTheJitter | internal/automate/engine.go:200-227 | asked at the listed minute with nothing fired since, the listed slot is due if and only if the jitter is what it was |
| SchedulerLaws.UnevenRuleBreaksThePromise | internal/automate/engine.go:153-227 | a rule for which it is not: shown minute 61, with jitter 1 then and 3 at that minute |
| SchedulerRuns.EveryRunIsSafe | internal/automate/engine.go:110-147 | over any run of ticks, clocks stepping back and stamps failing: fired slots match, are never early, strictly increase per schedule, and no last fire moves back |
| SchedulerRuns.EachScheduleIsItsOwnClock | internal/automate/engine.go:110-147 | a tick does to each schedule what its own turn alone would do |
| SchedulerRuns.TurnsLeaveOthers | internal/automate/engine.go:110-147 | firing some schedules leaves every other one's last fire and firings alone |
| SchedulerRuns.PromiseIsKeptByTheEngine | internal/automate/engine.go:110-187 | when the jitter at the listed minute is what it was, one tick a minute fires nothing before it and the listed slot at it |
| SchedulerRuns.PromiseIsKeptExactly | internal/automate/engine.go:110-227 | over such a run, early fires included, the schedule's firings are the listed one and no other if and only if the jitter at the listed minute is what it was when listed |
| SchedulerRuns.TheEngineBreaksAPromise | internal/automate/engine.go:110-227 | no run of one tick a minute keeps the minute shown for a rule with uneven intervals |
| Annotate.Annotator.Sync | desktop-shell/src/annotate.js:487-496 | items are renumbered by position |
| Annotate.Annotator.RestoreStyles | desktop-shell/src/annotate.js:257-275 | each edited property goes back to another live edit's value or to its snapshot |
| Annotate.Annotator.RestoreAllStyles | desktop-shell/src/annotate.js:277-279 | the same for every item, in order |
| Annotate.Annotator.Pick | desktop-shell/src/annotate.js:712-748 | a pick adds a numbered draft with its snapshots and opens its card, or does nothing |
| Annotate.Annotator.Propose | desktop-shell/src/annotate.js:281-294 | a proposal changes the edit and the element together |
| Annotate.Annotator.Handle | desktop-shell/src/annotate.js:540-936 | every handler, in place, takes the step of the specification |
| AnnotateNotes.WhoIsLeft | desktop-shell/src/annotate.js:540-936 | which annotations there are after any event, in order, whose card and whose menu are open, and whether the mode is on |
| AnnotateNotes.WhatIsLeft | desktop-shell/src/annotate.js:540-936 | what each remaining annotation holds after any event: saving gives the one being edited its comment, a proposal changes its proposals, cancelling drops them, nothing else changes |
| AnnotateNotes.NewNote | desktop-shell/src/annotate.js:712-748 | a picked annotation holds its element, the next id, its snapshots, nothing proposed and nothing said |
| AnnotateNotes.NotesAreKept | desktop-shell/src/annotate.js:750-761 | over any run every annotation holds the text last saved for it, and none if there was none |
| AnnotateNotes.ProposalShows | desktop-shell/src/annotate.js:281-294 | a proposal shows as an important inline style, one taken back puts the snapshot back, and no other property changes |
| AnnotateNotes.CancellingDropsPreviews | desktop-shell/src/annotate.js:763-775 | cancelling on a saved note keeps the note and puts back each property it alone proposed |
| AnnotateNotes.OthersLeaveThePage | desktop-shell/src/annotate.js:540-828 | opening, closing, saving and picking leave the page alone |
| AnnotateLaws.AtRestore | desktop-shell/src/annotate.js:257-275 | the inline value of every property after one item's styles are restored |
| AnnotateLaws.AtEmpty | desktop-shell/src/annotate.js:277-279 | the inline value of every property after all are |
| AnnotateLaws.StepIsFaithful | desktop-shell/src/annotate.js:247-294 | every handler keeps snapshots and page true to the page as found |
| AnnotateLaws.RunIsFaithful | desktop-shell/src/annotate.js:247-294 | so does every run in which each pick finds its element as the page had it |
| AnnotateLaws.CalmPicksAreTrue | desktop-shell/src/annotate.js:247-253 | an element without a live proposal shows what the page had there |
| AnnotateLaws.RunIsTidy | desktop-shell/src/annotate.js:257-294 | over any events no declaration without a value appears on the page |
| AnnotateLaws.PageComesBack | desktop-shell/src/annotate.js:887-936 | after such a run `clear` and `exit` leave every property as found, and at any time so is each property nobody proposes |
| AnnotateLocks.DraftLock | desktop-shell/src/annotate.js:479-666 | after any events: card open exactly while editing, live references, never card and menu together, at most one draft, items numbered 1..N |
| AnnotateLocks.StrayClicksAreHarmless | desktop-shell/src/annotate.js:712-828 | with a card open, picks, pins, dots and page clicks change nothing |
| AnnotateLocks.PickIsSafeExactly | desktop-shell/src/annotate.js:247-275 | after any run of safe picks, the next pick is safe, leaving gives the page back whatever is proposed, if and only if the element shows just what the page had there |
| AnnotateLocks.PickingUnderAPreviewSticks | desktop-shell/src/annotate.js:247-275 | otherwise some proposal, left, hands the page back with what showed at the pick and not what the page had |
| AnnotateRuns.APreviewIsPickedUp | desktop-shell/src/annotate.js:712-748 | a run from a bare page that reaches such a pick |
| AnnotateLocks.TakingBackWipesOthers | desktop-shell/src/annotate.js:281-294 | taking a proposal back leaves what is still proposed showing if and only if no other annotation proposes it |
| AnnotateRuns.APreviewIsWiped | desktop-shell/src/annotate.js:281-294 | a run from a bare page in which one annotation's card wipes what another still proposes |
| AnnotateLocks.RestoringKeepsOthers | desktop-shell/src/annotate.js:257-275 | removing or cancelling an annotation keeps what others propose showing |
| Permissions.Policy.Set | desktop-shell/src/permissions.rs:85-112 | a write stores, forgets or refuses as specified, and a refusal changes nothing |
| Permissions.KeyIsSiteAndKind | desktop-shell/src/permissions.rs:26-32 | two requests share an entry if and only if their sites and kinds agree |
| Permissions.EntryIsWritten | desktop-shell/src/permissions.rs:52-57 | a row's entry is the entry its requests look up |
| Permissions.WriteDecides | desktop-shell/src/permissions.rs:52-112 | exactly which requests a write changes, and to what, defaults for every site included |
| Permissions.PathNeverMatters | desktop-shell/src/permissions.rs:42-50 | an address's site is its scheme and host in lower case, whatever follows |
| PermissionAsks.Shell.RequestPermission | desktop-shell/src/btab.rs:2114-2198 | a request is decided by policy, left to the engine or held under a new id |
| PermissionVerdicts.SetPolicyDecides | desktop-shell/src/btab.rs:2114-2198 | over runs: what the user set for a site is what its requests get, allowed, denied, or held under the next id, until that entry is written again; a setting for every site does the same for sites without an entry of their own |
| PermissionVerdicts.ForgettingFallsBack | desktop-shell/src/btab.rs:2114-2198 | forgetting a site's entry leaves its requests to every site's, and to the platform when there is none |
| PermissionAsks.Shell.CompleteAsk | desktop-shell/src/btab.rs:2024-2034 | an ask is taken out and completed once |
| PermissionAsks.Shell.AnswerAsk | desktop-shell/src/btab.rs:2063-2108 | an answer completes its ask if it is still pending and remembers it when asked to |
| PermissionAsks.Shell.ExpireAsk | desktop-shell/src/btab.rs:2017-2036 | a watchdog denies its ask if it is still pending |
| PermissionAsks.Shell.Close | desktop-shell/src/btab.rs:1080-1122 | closing a tab denies its asks one by one |
| PermissionAsks.EveryAskOnce | desktop-shell/src/btab.rs:1988-2198 | under any interleaving ids are new and each is either pending or completed once; none is pending once every watchdog ran |
| PermissionVerdicts.FirstWins | desktop-shell/src/btab.rs:2019-2108 | the first to complete an ask decides it for good: an answer as given, the watchdog and the tab's closing with a denial, and nothing else takes it out |
| PermissionAsks.ClosingDenies | desktop-shell/src/btab.rs:1107-1122 | closing completes exactly the tab's asks, as denied |
| PermissionAsks.StandingDecides | desktop-shell/src/btab.rs:2114-2198 | once an answer is remembered, a later request of its site and kind is held again if and only if the answered origin was blank and the empty site's own entry says ask |
| PermissionAsks.ABlankOriginIsAskedAgain | desktop-shell/src/btab.rs:2063-2198 | a run from the start in which that happens |
| PermissionAsks.StandingLasts | desktop-shell/src/btab.rs:2063-2198 | a remembered answer stands through any events that do not set the policy |
| PermissionVerdicts.AlwaysIsRemembered | desktop-shell/src/btab.rs:2063-2198 | after "always" no later request of that site and kind is held and none changes anything; until that entry is written again each from an open tab gets the answer given |
| PermissionVerdicts.RememberedDecides | desktop-shell/src/btab.rs:2063-2198 | the same for answers given without an origin, for every site without an entry of its own |
| PermissionAsks.AnswerReachesOthers | desktop-shell/src/btab.rs:2063-2108 | "always" changes another site's decision if and only if the ask named no site, the kind is the same, that site has no entry of its own and every site's entry did not say so already |
| EventRing.Ring.Push | desktop-shell/src/btab.rs:107-119 | the ring keeps exactly the log's entries numbered dropped + 1 to seq, at most 256 of them |
| EventRing.Ring.Poll | desktop-shell/src/btab.rs:598-628 | a poll returns exactly the log's entries above both `since` and `dropped` |
| EventRing.PollerIsCaught | desktop-shell/src/btab.rs:598-628 | a poller that feeds back `last` collects a subsequence of the log without repeats |
| EventRing.GapIsDropped | desktop-shell/src/btab.rs:598-628 | a newer entry is missing from the reply if and only if it was dropped, and `dropped` exceeds `since` if and only if some newer entry is missing |
| EventRing.NothingIsMissed | desktop-shell/src/btab.rs:598-628 | over any run a poller has been given everything up to its last poll if and only if each of its polls came at most the capacity behind |
| DeskLog.ChordLeavesNothing | desktop-shell/src/input.rs:168-207 | pressing keys and releasing them in reverse leaves only what was down before, without them |
| Desk.Queue.ChordDown | desktop-shell/src/input.rs:181-200 | a chord's keys go down in order, each once, or what went down comes back up in reverse |
| Desk.Queue.PressChord | desktop-shell/src/input.rs:168-177 | a chord is pressed in order and let go in reverse, or exactly undone |
| Desk.Queue.ClickButton | desktop-shell/src/input.rs:100-111 | whole clicks only; all of them, at least one, unless one is refused |
| Desk.Queue.TypeText | desktop-shell/src/input.rs:211-256 | text that is typed is typed stroke by stroke, and no key is left down at any refusal |
| Desk.ComputerDesk.ReleaseAll | desktop-shell/src/computer.rs:92-98 | everything on the books comes up |
| Desk.ComputerDesk.DoClick | desktop-shell/src/computer.rs:421-438 | modifiers down, clicks, modifiers up in reverse; a refusal leaves only booked keys down |
| Desk.ComputerDesk.DoDrag | desktop-shell/src/computer.rs:440-460 | a drag presses and releases the left button, whatever fails between |
| Desk.ComputerDesk.DoLeft | desktop-shell/src/computer.rs:517-531 | the left button is held or let go, and the books say so |
| Desk.ComputerDesk.DoKeys | desktop-shell/src/computer.rs:568-581 | a chord is pressed and let go as often as asked |
| Desk.ComputerDesk.Do | desktop-shell/src/computer.rs:517-593 | each input job that succeeds wrote exactly its inputs and left exactly its buttons held |
| DeskJobs.InputsShow | desktop-shell/src/computer.rs:462-593 | read off the log alone: a click is so many presses of its button and no other, each with exactly the modifiers down; a chord is its key pressed so often with exactly the chord down; paste is V with exactly Control; and afterwards none of them is down |
| DeskJobs.TypingReads | desktop-shell/src/input.rs:211-256 | a reader of the log that knows the layout gets the text back without its carriage returns, packets as UTF-16 |
| Desk.ComputerDesk.DoHold | desktop-shell/src/computer.rs:582-593 | a held chord goes down and comes up in reverse |
| Desk.ComputerDesk.RunJob | desktop-shell/src/computer.rs:101-124 | between jobs no key is down and only booked buttons are; a success wrote exactly its inputs, and the log it left shows what was asked; after a failure nothing is down |
| Desk.ComputerDesk.Serve | desktop-shell/src/computer.rs:101-124 | the same over any run of jobs |
| Geometry.FitFits | desktop-shell/src/geometry.rs:67-82 | the image never exceeds source or limits and is never empty; limited by width, it keeps the shape to half a row |
| Geometry.FitKeepsTheShape | desktop-shell/src/geometry.rs:67-82 | limited by height, also after being limited by width, it keeps the shape to half a column |
| Geometry.PhysicalIsInside | desktop-shell/src/geometry.rs:32-40 | an image point lands inside the source in x |
| Geometry.ThereAndBack | desktop-shell/src/geometry.rs:32-52 | to the screen and back is the pixel or the one before, and each coordinate comes back if and only if its remainder says so |
| Geometry.OnePixelShort | desktop-shell/src/geometry.rs:32-52 | a frame and pixel that come back one short |
| Geometry.EveryColumnComesBack | desktop-shell/src/geometry.rs:32-52 | every column comes back if and only if srcW + 2 * gcd(srcW, imgW) >= 2 * imgW |
| Geometry.FullHdComesBack | desktop-shell/src/geometry.rs:32-52 | so from 1920 to 1280 all do |
| Geometry.RowsStayWithinOne | desktop-shell/src/geometry.rs:32-88 | limited by width, every row lands at most one pixel past the bottom if and only if the source is narrower than 2 * maxW * (srcH + 1) |
| Geometry.LastRowDecides | desktop-shell/src/geometry.rs:32-40 | in any frame every row lands at most one pixel past the bottom if and only if (2 * imgH - 1) * srcW < 2 * imgW * (srcH + 1) |
| Geometry.TallRowsStayWithinOne | desktop-shell/src/geometry.rs:67-88 | for frames limited by height, that condition on the rounded width |
| Geometry.ATallColumnPointsBelow | desktop-shell/src/geometry.rs:32-88 | a 3 by 3000 source, shown 1280 high, has rows that point 838 pixels below it |
| Geometry.ZoomCovers | desktop-shell/src/geometry.rs:93-109 | a zoom contains the screen point of every pixel of its region |
| Geometry.ZoomIsTight | desktop-shell/src/geometry.rs:93-109 | each edge of a zoom is less than one screen pixel outside its region's |
| Geometry.ZoomsStayInside | desktop-shell/src/geometry.rs:93-109 | any chain of zooms stays nested in x |
| Update.Updater.SwapExe | cmd/picode-desktop/update.go:126-142 | a swap ends with the release in place and the original aside, or with the original in place exactly when its rollback landed |
| Update.Updater.UnswapExe | cmd/picode-desktop/update.go:146-149 | the original comes back exactly when the rename lands |
| Update.Updater.RunUpdate | cmd/picode-desktop/update.go:81-121 | success means both are the verified release; failure means both are original if and only if every rollback rename landed; at every step each original survives and nothing unverified is installed |
| Rebind.Daemon.Bind | cmd/picode/main.go:824-845 | the lowest free port of the range, or none exactly when none is free |
| Rebind.Daemon.Rebind | cmd/picode/main.go:730-783 | a request ends as specified, and there is a moment without a server if and only if the host changes and the new one cannot be bound first |
| Rebind.NeverDown | cmd/picode/main.go:730-783 | whenever the loop waits, exactly one server is live, on the configured host and a port of its range |
| Rebind.SettingsSettle | cmd/picode/main.go:732-777 | after a request the settings name what is served if and only if they hold a range and, if it was refused, what had to be written back was kept |
| Rebind.ShownStaysTrue | cmd/picode/main.go:739-783 | what clients read stays the live address if and only if the step does not restore the old listener on another port |
| Rebind.AMoveLeavesClientsBehind | cmd/picode/main.go:750-765 | a started daemon on 8443 that comes back on 8444 and leaves both addresses clients read at 8443 |
| Rebind.ShownOverRuns | cmd/picode/main.go:730-783 | over a run without such a restore clients always read the live address |
| Rebind.RefreshCorrectsTheFileOnly | cmd/picode/main.go:739-748 | a request that changes nothing corrects the discovery file and not the port in memory |
| Ordering.Sort | internal/apps/docker.go:225-251 | the same elements, none before an earlier one |
| Ordering.OrderIsForced | internal/apps/docker.go:225-247 | a set has only one ascending listing |
| DockerGroups.Fill | internal/apps/docker.go:182-224 | each group holds exactly its project's containers, with every state counted and busy when one is |
| DockerGroups.Groups | internal/apps/docker.go:177-255 | one block a project in order, standalone last, items by name, states counted running first, busy exactly when an item is |
| DockerGroups.StandaloneIsLast | internal/apps/docker.go:229-234 | standalone containers come last and the projects before them by name |
| DockerGroups.BusyExactly | internal/apps/docker.go:208-217 | a container is busy if and only if an operation on it on this connection is running, and its badge is the first such one's action |
| DockerGroups.LabelsMean | internal/apps/docker.go:197-203 | created and exited containers count as stopped, ones without a state as unknown, others as what they are |
| DockerGroups.EachContainerOnce | internal/apps/docker.go:177-255 | the blocks together hold every container exactly once |
| DockerGroups.CountsAddUp | internal/apps/docker.go:236-250 | a block's state counts sum to its item count |
| DockerGroups.PageIsForced | internal/apps/docker.go:225-255 | two pages of the same containers have the same blocks in the same order: map iteration order never shows |
| Payload.JsonString | desktop-shell/src/waitstate.rs:126-147 | the escaping loop writes a string that section 7 of RFC 8259 reads back whole, free of control characters, `<`, U+2028 and U+2029 |
| Payload.StringReads | desktop-shell/src/waitstate.rs:126-147 | unescaping is a left inverse, whatever follows the closing quote |
| Payload.ObjectReads | desktop-shell/src/waitstate.rs:116-124 | the payload reads back as its stage, busy flag, seconds and detail |
| Payload.StagesDiffer | desktop-shell/src/waitstate.rs:34-57 | the stages have different keys, and all but three are waits in progress |
| Payload.ObjectIsClean | desktop-shell/src/waitstate.rs:116-147 | nothing in a payload ends a line or opens a tag |
| Base64.Encode | desktop-shell/src/b64.rs:6-19 | the chunk loop writes what section 4 of RFC 4648 decodes to the input |
| Base64.Encoded | desktop-shell/src/b64.rs:6-19 | the length is 4 * ceil(n / 3) |
| Base64.OnlyItsOwn | desktop-shell/src/b64.rs:6-19 | a text decodes to some bytes if and only if it is exactly what they encode to |
| Base64.PaddingIsLast | desktop-shell/src/b64.rs:6-19 | a place is padding if and only if it is one of the last as many as bytes are missing |

## Left out

- The kinds of settings and `validate_value` (desktop-shell/src/lib.rs:251-305): a finite check on values before they reach the editor.
- File reads, backups and atomic writes around the editor; the map's key order is an arbitrary enumeration of its keys, and every law holds for any.
- WslFile.SavedIsRead: values are taken to hold no line break, since one with a break writes several lines; a value with outer spaces reads back trimmed.
- WslSteady.SavingTwiceSameText: for a file without a final newline only this direction is stated; the exact condition is `WslLetter.SavingTwiceExactly`'s, for files that end in one.
- Cron parsing, time zones and daylight saving: a rule is a set of matching minutes with a horizon for the search, and the FNV hash is any natural number.
- Edits of a schedule's rule, which clear its last fire, and `Reconcile`, sessions and costs of the engine.
- SchedulerRuns.EveryRunIsSafe: times are whole minutes in one zone, so what a sub-minute clock does within a minute is not modelled.
- Annotate.Annotator.Handle: items are values in a sequence, not shared objects; elements stay connected, so `reposition` and its pruning are not modelled, nor are pins' and cards' layout, focus, dictation and the clipboard.
- Annotate.Annotator.Propose: every proposed value is taken to be accepted by the style engine, and the page's own scripts are taken not to write the same properties.
- Permission reports to pages, the engine's own stored permission state, and the other settings of btab.rs.
- Event subscription and unsubscription, and the ring's reset when a tab closes.
- Desk.Queue.Send: a release is taken to land always, a press may be refused; capture, windows, moves, scrolling and the clipboard are only success or failure.
- Chord parsing and the keyboard layout: a chord comes resolved, and a layout is any map from characters to keys; typed text is read back for layouts that give one character a key and shift and keep off the keys typing uses itself.
- Geometry.ThereAndBack: scales are exact quotients, not floating point, and coordinates do not overflow 32 bits.
- Update.Updater.RunUpdate: the release lookup before the downloads, and which leftover downloads remain, since removing them may fail.
- Rebind.Daemon.Rebind: the extra loopback listener, TLS, graceful draining of connections and signals.
- DockerGroups.Groups: block ids and actions, whose text is built from the endpoint and project kept here, and the English labels of actions.
- `cert_verdict` and `unanswered` of waitstate.rs, the CDP catalogue, base-key and role-name tables: finite tables.
- WebView2, Win32, HTTP, SQLite, tmux and wsl.exe calls, command-line dispatch, provisioning and backups.
