# A verified model of jjui's core logic

jjui is a terminal interface for the Jujutsu version control system. This project models the parts of it
that carry the most state and branching, and proves what those parts are for. `dafny verify dfyconfig.toml`
checks everything.

| area | files | main results |
|---|---|---|
| review of a change | `word_diff`, `patch_lines`, `pairing`, `patch_parser`, `patch_returns`, `file_lines`, `patch_numbers`, `review_source`, `patch_order` | the changed-word marks leave a longest common subsequence; printing and reading a patch is a round trip, carriage returns included; line pairing is a matching; when a comment is found again on exactly the lines it was made on |
| the review view | `review_state`, `review_protocol`, `review_notes`, `review_handlers`, `review_cache`, `review_display`, `review_view` | over every order, repetition or loss of load responses the files belong to the current revision and an open editor keeps its text, revision and file list, with the exact cases in which it loses its focus or its cursor moves; the view shows every line's rows and each comment once, straight after its line, and the cached display equals the uncached one; closing loses no comment |
| keys | `conditions`, `scopes`, `key_lookup`, `dispatcher`, `dispatcher_object` | one key at a time gives the same as looking up the whole sequence; a sequence fires only if its binding was visible and enabled at every key |
| log output | `sgr`, `ansi`, `ansi_deletion`, `row_prefixes`, `graph_rows`, `streaming`, `stream_protocol` | the escape parser equals a character-by-character reference, and plain deletion of escape sequences under an exact condition; batches add up to the unbatched rows; parser and consumer never get stuck and every schedule delivers everything |
| screen | `list_window`, `box_split` | the drawn window is a slice of the whole list; boxes tile their parent |
| input and messages | `revset_scan`, `remote_list`, `revset_completion`, `revset_offers`, `revset_editor`, `flash` | every candidate that fits is offered and no other; accepting a completion keeps what was typed; every command reported both ways is recorded exactly once, if and only if it is not empty |

`text.dfy` holds the string operations of Go's library that the code calls, and general lemmas about sequences and folds.

Code that updates objects is modelled by classes (`ReviewView.AnnotationView`, `ReviewView.Renderer`,
`DispatcherObject.Dispatcher`, `GraphRows.GraphRow`, `ListWindow.ListRenderer`, `RevsetEditor.Editor`, `Flash.Tracker`)
whose methods are proved against functions on values; runs of those functions carry the theorems.

## Where the code and a promise differ

- SGR (section 8.3.117 of ECMA-48) reads an empty parameter as 0. The parser skips it, so `ESC [ m` does not reset the
  style (`Sgr.EmptySequenceIsNotReset`) and `ESC [ 38;5; m` sets no colour (`Sgr.EmptyColourIsSkipped`).
  `Sgr.DefaultAgreesIff` says from which styles the two readings of a parameter string agree, and `Sgr.AlwaysAgreesIff`
  which parameter strings are read alike from every style.
- An escape that does not open a sequence takes the next character with it, so `ESC ESC [` opens none.
  `AnsiDeletion.DeletesIff` says that the parser deletes every `ESC [ ... m` exactly when no `[` stands after an even run
  of escapes outside a parameter string (`AnsiDeletion.PairedIsEvenRun`); `AnsiDeletion.EscapedEscapeIsText` is an
  input where it does not.
- Cutting the graph column off a line drops the rest of a segment that reaches past it unless it is the last one, and
  drops the first segment of several when the column is empty. `GraphRows.ChopKeepsTextIff` gives the exact condition.
- A comment is found again from every selection exactly when the line numbers of each side go up or go down
  (`ReviewSource.RoundTripIff`, and for whatever patch text was read `PatchOrder.ReadRoundTripIff`).
  `PatchOrder.ShuffledTextFails` is a patch for which it fails.
- The parser and the file view drop carriage returns, so a line's text comes back exactly when it holds none
  (`PatchReturns.LineComesBackIff`). The file view lacks an unended last line made of carriage returns only
  (`FileLines.ViewHasVersionLinesIff`).
- A key without a name is not consumed while a sequence is pending: `Dispatch.PendingConsumes` has both directions.
- A single parent or child that arrives while a comment is being edited clears the focus before the move is refused
  (internal/ui/annotation/model.go:357-359), so saving adds a second comment instead of changing the first:
  `ReviewProtocol.TargetMayMeetEditor` and `ReviewProtocol.LostFocusTurnsChangeIntoAddition`.
- An empty command is taken for a missing one by the message tracker. This concerns the tracker alone: its one sender
  writes `jj ` in front of every command (internal/ui/context/command_runner.go:82,134). A command reported both ways is
  recorded exactly when it is not empty (`Flash.RecordedIff`); an empty one reported running first stays in both maps,
  and only such an id is in both (`Flash.HalvesAre`, `Flash.EmptyCommandSticks`, `Flash.EmptyCommandIsShown`).
- The comments count as copied as soon as the copy command is issued, also when the clipboard write then fails
  (internal/ui/annotation/model.go:254-272). `ReviewProtocol.CloseLosesNothing` is about what was handed to that command.
- With `LeakGlobal` the scopes behind are filtered by their Global mark alone; a later `LeakNone` among them no longer
  stops anything (internal/ui/common/scope.go:46-63). `Scopes.VisibleIsReached` states it that way.

## Model

| member | source | states |
|---|---|---|
| WordDiff.SplitWordTokens | internal/ui/annotation/highlight.go:192-216 | the tokens spell the line, alternate between blanks and words, and the words are those of strings.Fields |
| WordDiff.ChangedWordPositions | internal/ui/annotation/highlight.go:218-250 | over the cutoff every word is marked; under it the unmarked words of both lines spell one sequence, and no common subsequence is longer |
| WordDiff.CommonLengthIsLongest | internal/ui/annotation/highlight.go:224-249 | unmarked words of the length the table gives are a longest common subsequence |
| WordDiff.FillTable | internal/ui/annotation/highlight.go:224-236 | every cell holds the longest common length of the two remainders |
| WordDiff.AllChanged | internal/ui/annotation/highlight.go:252-258 | every position is marked |
| Pairing.SharedLineWords | internal/ui/annotation/patch.go:328-346 | the number of distinct words with a letter or digit that both lines have |
| Pairing.SharedWordsSymmetric | internal/ui/annotation/patch.go:328-346 | the score does not depend on which line is the old one |
| Pairing.ScoresIff | internal/ui/annotation/patch.go:328-346 | two lines score exactly when some word with a letter or digit is in both |
| Pairing.BestMatch | internal/ui/annotation/patch.go:280-318 | finds the line that scores strictly higher than all others and above zero exactly when there is one |
| Pairing.AgreementIsMutual | internal/ui/annotation/patch.go:319-325 | two entries agree exactly when each line is the other's unique best, although a missing map entry reads as 0 |
| Pairing.RelatedLinePairs | internal/ui/annotation/patch.go:269-326 | two lines are related exactly when they are mutual unique bests within the size limit |
| Pairing.PartnersAreUnique | internal/ui/annotation/patch.go:237-267 | no line has two partners: pairing is an injective partial matching |
| Pairing.PairContentIsSymmetric | internal/ui/annotation/patch.go:259-264 | both lines of a pair carry the other's text |
| Pairing.WritePairs | internal/ui/annotation/patch.go:259-264 | writing the pairs in any order changes exactly the paired lines |
| Pairing.PairChangedBlocks | internal/ui/annotation/patch.go:237-267 | in place, every line ends up as the definition of pairs says |
| PatchParser.ScanRepeatedPath | internal/ui/annotation/patch.go:156-171 | finds the path that an unquoted header repeats, when there is one |
| PatchParser.TwiceIsUnique | internal/ui/annotation/patch.go:156-171 | a header repeats at most one path, so the scan cannot pick a wrong one |
| PatchParser.HeaderRoundTrip | internal/ui/annotation/patch.go:146-172 | a header that states two paths, as two words or one path repeated, is read back with them |
| PatchParser.HeaderStatesNothing | internal/ui/annotation/patch.go:146-172 | any other header that is not two words states no path |
| PatchParser.HunkHeaderRoundTrip | internal/ui/annotation/patch.go:206-235 | a printed hunk header is read back with its two start lines |
| PatchParser.MarkerRoundTrip | internal/ui/annotation/patch.go:174-190 | a printed file marker is read back with its path |
| PatchParser.QuotedMarker | internal/ui/annotation/patch.go:174-190 | a quoted path is the first word it is read as, without its prefix |
| PatchParser.ParseGitPatch | internal/ui/annotation/patch.go:49-144 | the reading loop followed by the finishing pass computes the parsed files with pairs filled in |
| PatchParser.StepReadsBody | internal/ui/annotation/patch.go:107-137 | a body line inside a hunk is read as itself even when its text begins like a file marker |
| PatchParser.CleanPatchRoundTrip | internal/ui/annotation/patch.go:49-144 | without carriage returns, reading a printed patch gives back paths, kinds, texts and both line numbers of every line |
| PatchReturns.StripPrinted | internal/ui/annotation/patch.go:56-56 | dropping the carriage returns of a printed patch is printing the patch without them |
| PatchReturns.PatchRoundTrip | internal/ui/annotation/patch.go:49-144 | reading a printed patch, carriage returns and all, gives back the files without them: paths, kinds, texts and both line numbers |
| PatchReturns.LineComesBackIff | internal/ui/annotation/patch.go:56-137 | a line keeps its numbers, and its text comes back exactly when it holds no carriage return |
| PatchReturns.HeaderLinesShown | internal/ui/annotation/patch.go:96-101 | a file read from a printed patch shows just those extended header lines that are not empty and begin with none of `index `, `rename from `, `rename to `, in order, and then its hunks |
| PatchReturns.NewFileShowsMode | internal/ui/annotation/patch.go:196-204 | of the header of a new empty file the mode line is shown and the index line is not |
| PatchReturns.SummaryNamesBoth | internal/ui/annotation/patch.go:134-142 | a file under two names begins with the line `old -> new` and keeps all its own lines |
| PatchReturns.OtherLineEndsHunk | internal/ui/annotation/patch.go:126-131 | a line that is no body line ends the hunk, and is shown under the same condition |
| FileLines.ViewHasVersionLinesIff | internal/ui/annotation/document.go:191-198 | the file view's lines are the version's without carriage returns, with the exact exception |
| PatchNumbers.DiffAgreesWithFiles | internal/ui/annotation/patch.go:107-137 | line n of the diff has the text of line n of that side's file, carriage returns aside |
| PatchNumbers.DiffAgreesWithFileView | internal/ui/annotation/document.go:191-198 | line n of the diff view is line n of the file view, from the two texts to the two screens |
| PatchNumbers.IncreasingPatchIsWellNumbered | internal/ui/annotation/patch.go:85-137 | hunks in increasing order give numbers that increase down each side |
| PatchNumbers.CommentOnParsedPatch | internal/ui/annotation/document.go:77-137 | from printed patch to comment and back: the comment covers its selection and is shown once, inside it |
| PatchNumbers.DiffCommentInFileView | internal/ui/annotation/document.go:115-151 | a comment made in the diff is found in the complete file on a line with the same text |
| ReviewSource.Source.AnnotationLocation | internal/ui/annotation/document.go:77-101 | the two ranges cover the selection's numbers, the snippet its commentable lines; out of range gives nothing |
| ReviewSource.SideRangeCovers | internal/ui/annotation/document.go:161-171 | a range covers every number of the selection and both ends are numbers of it |
| ReviewSource.Source.Anchor | internal/ui/annotation/document.go:115-137 | the first line that matches the end of the comment's range |
| ReviewSource.AnchorMeans | internal/ui/annotation/document.go:115-137 | in the diff, the first line with the last new number, or with the last old one if there is no new |
| ReviewSource.CommentRoundTrip | internal/ui/annotation/document.go:77-137 | where each side's numbers go up or go down, or in the complete file, a comment contains exactly the commentable lines of its selection, its anchor lies inside, and it is shown after that line and no other |
| ReviewSource.DiffCommentAnchor | internal/ui/annotation/renderer.go:575-586 | in the diff exactly one line shows the comment |
| ReviewSource.RoundTripIff | internal/ui/annotation/document.go:77-137 | in the diff every selection is found again if and only if each side's numbers go up or go down |
| PatchOrder.ReadRoundTripIff | internal/ui/annotation/patch.go:49-144 | in every file read from any patch text whose lines got positive numbers on their sides, every comment is found again exactly when the numbers of each side go up or go down |
| PatchOrder.ReadIsSound | internal/ui/annotation/patch.go:107-137 | no text gives a line a number on a side it does not belong to |
| PatchOrder.ParsedRoundTripIff | internal/ui/annotation/patch.go:49-144 | so it is for every file of a printed patch whose hunks with lines on a side start at 1 or later there |
| PatchOrder.ShuffledPatchFails | internal/ui/annotation/document.go:103-113 | reading a patch that deletes lines 2 and 3 before line 1 gives lines on which some comment is not found again |
| PatchOrder.ShuffledTextFails | internal/ui/annotation/document.go:103-113 | the text of one such patch is read into such lines |
| ReviewProtocol.StoreStepsGrow | internal/ui/annotation/annotation.go:31-74 | every store operation that changes the comments raises the version |
| ReviewProtocol.NextKeeps | internal/ui/annotation/model.go:278-433 | every message and intent keeps the invariant of the load protocol |
| ReviewProtocol.RunsGoOn | internal/ui/annotation/model.go:542-572 | no reachable state lets a handler meet a missing file |
| ReviewProtocol.FilesComeFromCurrentRevision | internal/ui/annotation/model.go:298-383 | the files are none or those of a delivered, successful load of the current revision, their complete texts come from it or from responses for this revision and path, and no load is taken twice |
| ReviewProtocol.OutstandingIsAccepted | internal/ui/annotation/model.go:298-312 | a response is taken exactly when it bears the outstanding id; any other changes nothing |
| ReviewProtocol.EditorUnderResponses | internal/ui/annotation/model.go:299-383 | whatever load response arrives, an open editor stays open with its text, comments, revision and file list; its focus is lost exactly to a single parent or child or to a response for its file that leaves it without the comment's line, and its cursor moves exactly to the line of the focused comment in a text just loaded |
| ReviewProtocol.LostFocusTurnsChangeIntoAddition | internal/ui/annotation/model.go:357-359 | once a response took the focus, saving adds a comment where it would have changed one |
| ReviewProtocol.TargetMayMeetEditor | internal/ui/annotation/model.go:854-867 | asking for a parent or child and then opening the editor on a comment leads to that state |
| ReviewProtocol.CloseLosesNothing | internal/ui/annotation/model.go:112-127 | closing is allowed only when there are no comments or they are exactly those last handed to the copy command |
| ReviewProtocol.SelectOutcome | internal/ui/annotation/model.go:895-909 | selecting a revision changes nothing or issues one fresh load, never while editing |
| ReviewProtocol.AddOutcome | internal/ui/annotation/model.go:214-228 | the editor opens only on a line of a current file |
| ReviewProtocol.SaveOutcome | internal/ui/annotation/model.go:542-572 | saving leaves loads alone and changes the store only with a new version |
| ReviewHandlers.FreshView | internal/ui/annotation/model.go:88-110 | a new view waits for its revision and shows nothing |
| ReviewHandlers.SelectLoadsIff | internal/ui/annotation/model.go:895-909 | a revision is loaded exactly when commands can run, it is neither shown nor on its way and no comment is being edited |
| ReviewHandlers.TargetsMean | internal/ui/annotation/model.go:343-362 | of the parents or children found, the root aside, none is ignored, one is turned to and several are offered |
| ReviewHandlers.NavigateFileMeans | internal/ui/annotation/model.go:712-723 | the next or previous file, round and round, from its first commentable line |
| ReviewHandlers.FilePickedMeans | internal/ui/annotation/model.go:838-852 | the first file with the picked path, from its first commentable line |
| ReviewHandlers.JumpMeans | internal/ui/annotation/model.go:796-836 | a jump goes to the comment's line in the diff, else in the complete file, else waits for its text, else gives up the focus and says why |
| ReviewHandlers.JumpWithoutFile | internal/ui/annotation/model.go:797-808 | without its revision or its file the focus is given up |
| ReviewHandlers.FileLoadedMeans | internal/ui/annotation/model.go:363-376 | a complete text or its error is kept with the first file of that path and changes no other |
| ReviewHandlers.RevisionLoadedMeans | internal/ui/annotation/model.go:299-342 | what each accepted load leaves in the document and the view |
| ReviewCache.ApplyFollows | internal/ui/annotation/model.go:278-433 | every message and intent keeps the version discipline: while a version stands still, so does what it stands for |
| ReviewCache.KeyDecides | internal/ui/annotation/renderer.go:259-273 | two states of one run with equal cache keys, neither editing, show the same lines |
| ReviewCache.CacheIsFresh | internal/ui/annotation/renderer.go:249-282 | in any run, a cached screen with the current key is the current screen |
| ReviewView.NoteStore.Add | internal/ui/annotation/annotation.go:31-37 | appends with a fresh id and a new version |
| ReviewView.NoteStore.UpdateComment | internal/ui/annotation/annotation.go:47-55 | replaces the comment with that id, if any |
| ReviewView.NoteStore.Remove | internal/ui/annotation/annotation.go:57-65 | removes the comment with that id, if any |
| ReviewView.NoteStore.Clear | internal/ui/annotation/annotation.go:67-74 | empties the store; a new version only if it held something |
| ReviewView.NoteStore.Index | internal/ui/annotation/annotation.go:100-104 | the first comment with that id or -1 |
| ReviewNotes.FindMeans | internal/ui/annotation/annotation.go:39-45 | a comment is found by its id exactly when it is there |
| ReviewNotes.AddMeans | internal/ui/annotation/annotation.go:31-37 | a new comment comes last under an id larger than all others |
| ReviewNotes.UpdateMeans | internal/ui/annotation/annotation.go:47-55 | only the text of the comment with that id changes |
| ReviewNotes.RemoveMeans | internal/ui/annotation/annotation.go:57-65 | only the comment with that id goes |
| ReviewNotes.AtCursorMeans | internal/ui/annotation/model.go:658-702 | at the cursor stands the focused comment if it covers the line, and else every comment of the file that does |
| ReviewNotes.DeleteMeans | internal/ui/annotation/model.go:673-686 | with a single comment at the cursor deleting takes out that one, otherwise none |
| ReviewNotes.SaveMeans | internal/ui/annotation/model.go:542-572 | saving changes the comment being edited or adds one made from the selection; blank text changes nothing |
| ReviewView.Renderer.BuildBody | internal/ui/annotation/renderer.go:322-400 | each line's rows, then its comments, then the editor if it sits there |
| ReviewView.Renderer.BuildUncached | internal/ui/annotation/renderer.go:294-320 | the display as defined |
| ReviewDisplay.DisplayIsBlocks | internal/ui/annotation/renderer.go:322-400 | line after line, the view shows the line's rows, the comments on this revision and file that belong after it in the order they were made, and the editor after the selection's last line |
| ReviewDisplay.RowsOfLine | internal/ui/annotation/renderer.go:345-348 | the rows that carry a line's number are the painter's rows of that line, all, in order and no others |
| ReviewDisplay.CommentIsShown | internal/ui/annotation/renderer.go:349-352 | a comment made in the view belongs after exactly one line, inside its selection, and its rows stand there as one block |
| ReviewDisplay.EditorIsShown | internal/ui/annotation/renderer.go:353-356 | while editing, the editor's rows begin at the editor start, straight after the comments of the selection's last line |
| ReviewDisplay.NoEditorShown | internal/ui/annotation/renderer.go:333-357 | otherwise there is no editor start and no editor row |
| ReviewDisplay.MessageInstead | internal/ui/annotation/renderer.go:294-331 | without a body one message says why, and which |
| ReviewView.Renderer.EnsureSource | internal/ui/annotation/renderer.go:284-292 | a new source version invalidates the cache |
| ReviewView.Renderer.BuildDisplayLines | internal/ui/annotation/renderer.go:249-282 | cached or not, the result is the uncached display |
| ReviewView.AnnotationView.Update | internal/ui/annotation/model.go:278-433 | one message or intent gives the next state and command of the model; also when the handler builds display lines, whatever is cached stays a screen of this view |
| ReviewView.AnnotationView.RequestClose | internal/ui/annotation/model.go:112-127 | closes without a question exactly when there are no comments or the copied version is the current one |
| ReviewView.AnnotationView.ThemeChanged | internal/ui/annotation/model.go:280-286 | a new renderer with nothing cached |
| ReviewView.AnnotationView.BuildDisplayLines | internal/ui/annotation/model.go:465-467 | after any calls, the lines are those of the uncached builder for the current state |
| Conditions.EvaluateMeaning | internal/ui/actionmeta/condition.go:68-98 | evaluation is valid exactly when every path is known, and its value is the plain boolean reading |
| Conditions.MatchesIff | internal/ui/actionmeta/condition.go:60-66 | a condition matches exactly when every path is a known boolean and it holds, even under negation or beside a true disjunct |
| Conditions.DottedPath | internal/ui/actionmeta/condition.go:32-41 | the path of a name with fields splits at its dots into just these names |
| Conditions.OnlyDottedHasPath | internal/ui/actionmeta/condition.go:32-41 | nothing else has a path |
| Scopes.VisibleScopes | internal/ui/common/scope.go:46-63 | computes the visible scopes |
| Scopes.VisibleIsReached | internal/ui/common/scope.go:46-63 | the visible scopes are, in order, exactly those not cut off |
| KeyLookup.PickIsInnermost | internal/ui/dispatch/dispatcher.go:203-222 | one pass over the candidates picks the innermost scope's last-added suitable binding, or none exactly if none is offered |
| KeyLookup.FirstScopeIsInnermost | internal/ui/dispatch/dispatcher.go:160-173 | scanning scopes outwards and bindings backwards finds the same |
| KeyLookup.InnermostIsUnique | internal/ui/dispatch/dispatcher.go:203-222 | there is at most one such binding |
| KeyLookup.RejectedIff | internal/ui/bindings/binding.go:20-47 | each reason for which a binding is rejected |
| Dispatch.FeedIsLookup | internal/ui/dispatch/dispatcher.go:138-229 | with fixed surroundings the next key fires the innermost, last-added binding the keys complete, waits while some binding begins with them, and is swallowed otherwise |
| Dispatch.FirstKey | internal/ui/dispatch/dispatcher.go:144-175 | a sequence that begins with the key shadows every single-key binding; otherwise the innermost, last-added one fires; otherwise the key is left alone |
| Dispatch.FiredWasSeenThroughout | internal/ui/dispatch/dispatcher.go:124-129 | while scopes and conditions change, a sequence fires only if its binding was visible, enabled and matching at every key |
| Dispatch.EnabledIff | internal/ui/dispatch/dispatcher.go:94-116 | a binding is enabled exactly when its own condition and its action's, the configured one or else the built-in one, are fully known and true, as far as there are any |
| Dispatch.FiredConditionHeld | internal/ui/dispatch/dispatcher.go:94-116 | for a sequence all these conditions held at every one of its keys |
| Dispatch.KeyConditionHeld | internal/ui/dispatch/dispatcher.go:160-173 | for a single key they held at that key, and the binding is visible and has the key by one of its two names |
| Dispatch.IgnoredIff | internal/ui/dispatch/dispatcher.go:138-175 | a key is left alone exactly when it has no name or no visible enabled binding takes it |
| Dispatch.SinceIsLatest | internal/ui/dispatch/dispatcher.go:177-201 | the keys of the pending sequence are the last named keys, none left out |
| Dispatch.PendingConsumes | internal/ui/dispatch/dispatcher.go:138-147 | while pending a key is consumed exactly when it has a name; esc cancels |
| Dispatch.PendingEnds | internal/ui/bindings/binding.go:33-47 | a pending sequence ends within the longest sequence's length less one further keys |
| DispatcherObject.Dispatcher.New | internal/ui/dispatch/dispatcher.go:48-72 | a dispatcher exactly when every binding passes validation, with its bindings filed by scope |
| DispatcherObject.Dispatcher.SetActionWhen | internal/ui/dispatch/dispatcher.go:77-92 | sets or drops one action's condition and no other |
| DispatcherObject.Dispatcher.EligibleCandidates | internal/ui/dispatch/dispatcher.go:124-129 | the candidates still visible and enabled |
| DispatcherObject.Dispatcher.InitialSequenceCandidates | internal/ui/dispatch/dispatcher.go:231-241 | the enabled sequence bindings of the visible scopes that the key starts |
| DispatcherObject.Dispatcher.ResolveSequenceKey | internal/ui/dispatch/dispatcher.go:177-229 | esc or a key that continues nothing ends the sequence, a completed one fires its winner, otherwise the narrowed candidates wait |
| DispatcherObject.Dispatcher.KeyBinding | internal/ui/dispatch/dispatcher.go:160-173 | the innermost scope's last-added enabled binding with that key |
| DispatcherObject.Dispatcher.Resolve | internal/ui/dispatch/dispatcher.go:138-175 | one key press is one step of the model |
| Sgr.ApplyParams | internal/screen/ansi_parser.go:94-215 | the parameter loop folds the operations the parameters stand for |
| Sgr.SettingCodes | internal/screen/ansi_parser.go:107-135 | what 0 and each of 1 to 9 do |
| Sgr.ClearingCodes | internal/screen/ansi_parser.go:136-204 | which attributes each of 22 to 29, 39 and 49 clears |
| Sgr.ColourCodes | internal/screen/ansi_parser.go:157-210 | which colour each of 30 to 37, 40 to 47, 90 to 97 and 100 to 107 gives to text or background, and that nothing else changes |
| Sgr.OtherCodes | internal/screen/ansi_parser.go:101-212 | every other number alone does nothing |
| Sgr.IndexedColour | internal/screen/ansi_parser.go:160-168 | `38;5;n` and `48;5;n` choose palette colour n for text and background |
| Sgr.DirectColour | internal/screen/ansi_parser.go:169-178 | `38;2;r;g;b` and `48;2;r;g;b` choose the colour with these parts |
| Sgr.CodesInTurn | internal/screen/ansi_parser.go:99-212 | a complete code takes effect first, and what follows is read as if it stood alone |
| Sgr.LastWins | internal/screen/ansi_parser.go:94-215 | each attribute ends up as the last operation touching it leaves it |
| Sgr.ApplyTwice | internal/screen/ansi_parser.go:94-215 | repeating a sequence changes nothing |
| Sgr.DefaultAgreesIff | internal/screen/ansi_parser.go:94-215 | from a given style the standard's result is reached exactly when each attribute whose last operation is a skipped empty field already had the value the field stands for |
| Sgr.AlwaysAgreesIff | internal/screen/ansi_parser.go:94-215 | from every style, exactly when each such attribute was last touched before by an operation with the same effect |
| Sgr.NoEmptyFieldAgrees | internal/screen/ansi_parser.go:94-215 | without an empty field the two readings are the same |
| Sgr.EmptyColourIsSkipped | internal/screen/ansi_parser.go:156-176 | `ESC [ 38;5; m` sets no colour where the standard selects colour 0 |
| Sgr.EmptySequenceIsNotReset | internal/screen/ansi_parser.go:94-97 | `ESC [ m` leaves bold on where the standard resets |
| Ansi.ParseFromReader | internal/screen/ansi_parser.go:22-92 | the segments show the reference's cells, none is empty |
| AnsiDeletion.DeletesIff | internal/screen/ansi_parser.go:41-82 | the parser shows what deleting every `ESC [ ... m` would, exactly when no bracket stands after an even run of escapes in text, and never less |
| AnsiDeletion.PairedIsEvenRun | internal/screen/ansi_parser.go:74-80 | outside a parameter string the brackets meant are those straight after an even number of escapes, at least two |
| AnsiDeletion.EscapedEscapeIsText | internal/screen/ansi_parser.go:74-80 | `ESC ESC [ 1 m x` is shown as it is |
| Ansi.PrintRoundTrip | internal/screen/ansi_parser.go:22-92 | reading printed pieces gives their text in the styles their parameters add up to |
| Ansi.BreakNewLines | internal/screen/segment.go:30-59 | the lines are the cells between newlines, no segment is empty or holds a newline |
| Ansi.LinesKeepCells | internal/screen/segment.go:30-59 | nothing but the newlines is lost, and there is one line for each newline and for a rest |
| RowPrefixes.SplitJoinStr | internal/parser/row_line.go:39-42 | joined fields come apart again |
| RowPrefixes.PrintedPrefixIsRead | internal/parser/row_line.go:27-71 | a line printed with the metadata fields yields them and keeps the rest, for any separator that cannot overlap itself |
| RowPrefixes.LogPrefixIsRead | internal/parser/row_line.go:27-71 | so does a line printed with jjui's own prefix |
| RowPrefixes.TemplateLineIsRead | internal/parser/row_line.go:39-71 | whatever ids and conditions a template prints in three to eight fields, the commit has just these, each in its place; blanks after the last field do no harm |
| RowPrefixes.OtherLengthIsLeft | internal/parser/row_line.go:39-42 | with fewer or more fields the line is left alone |
| GraphRows.ChopSegments | internal/parser/row_line.go:73-129 | the graph column is the first Indent cells, filled up unless the line is empty; the rest is what follows |
| GraphRows.ColumnMeans | internal/parser/row_line.go:73-129 | a column that is too short is filled up with blanks in its last style |
| GraphRows.ChopKeepsTextIff | internal/parser/row_line.go:82-108 | no text is lost exactly when no segment but the last reaches past the column |
| GraphRows.RestHasNoEmpty | internal/parser/row_line.go:82-108 | cutting leaves no empty segment |
| GraphRows.WithLineKeeps | internal/parser/row.go:157-180 | one Revision line, the first; Highlightable up to the first elided line; every graph column empty or Indent wide |
| GraphRows.FirstLineMarks | internal/parser/row.go:157-171 | the first line's column says whether the row is the working copy, its text whether it is hidden; the rest of the commit stays |
| GraphRows.LaterLineMarks | internal/parser/row.go:172-180 | later lines leave the commit alone and are elided exactly when their column has the sign |
| GraphRows.MaskMeans | internal/parser/row.go:103-135 | a column goes on exactly when the last line deciding about it has a glyph leading down |
| GraphRows.GlyphsDecide | internal/parser/row.go:103-116 | which glyphs continue a column and which leave it as it is |
| GraphRows.Extend | internal/parser/row.go:94-155 | every index stays inside the mask; a bar where the column goes on, in the last shown line's style |
| GraphRows.GraphLine.Chop | internal/parser/row_line.go:73-129 | the same in place |
| GraphRows.GraphLine.ParseRowPrefixes | internal/parser/row_line.go:27-71 | takes the metadata out of the line |
| GraphRows.GraphRow.AddLine | internal/parser/row.go:157-180 | the same in place |
| Streaming.RowsAreLinked | internal/parser/streaming_log_parser.go:47-57 | every row is well formed and its Previous is the complete row before it |
| Streaming.TemplateLineStartsRow | internal/parser/streaming_log_parser.go:30-61 | a line printed by a template finishes the row before and begins one with the ids and conditions printed, the indent of its metadata and the row before as Previous, unless exactly one segment follows the metadata |
| Streaming.PlainLineGoesOn | internal/parser/streaming_log_parser.go:27-61 | any other line goes on with the row, or is dropped before the first |
| Streaming.BatchesAddUp | internal/parser/streaming_log_parser.go:22-80 | batches add up to the unbatched rows; all but the last hold batchSize+1; HasMore is true exactly when a non-empty batch follows |
| Streaming.ParseRowsStreaming | internal/parser/streaming_log_parser.go:22-80 | a consumer that asks n times receives the first n batches, or all |
| Streaming.DeliveredIsPrefix | internal/parser/streaming_log_parser.go:36-45 | whatever was delivered when the consumer stops is a prefix of the rows |
| StreamProtocol.StepKeeps | internal/parser/streaming_log_parser.go:34-90 | every step of either party keeps them in step |
| StreamProtocol.ReceivedInOrder | internal/ui/graph/graph_streamer.go:110-136 | at most one batch is under way, batches arrive in order, each request is answered once by a batch or by the closed channel |
| StreamProtocol.ReachableGoesOn | internal/parser/streaming_log_parser.go:83-90 | before cancellation no reachable state is stuck |
| StreamProtocol.StepGetsCloser | internal/parser/streaming_log_parser.go:34-80 | every step brings the end closer, so no schedule runs for ever |
| StreamProtocol.Drive | internal/ui/revisions/revisions.go:1404-1419 | every schedule ends with all batches received, for a buffered control channel or not |
| StreamProtocol.ParseRows | internal/parser/log_parser.go:9-23 | the request loop returns the unbatched rows |
| StreamProtocol.ReceivedIsPrefix | internal/ui/graph/graph_streamer.go:138-158 | also after cancellation the rows received are a prefix |
| ListWindow.ClampStartLine | internal/ui/render/list.go:247-256 | inside the bounds, and unchanged if it was |
| ListWindow.LayoutAll | internal/ui/render/list.go:192-243 | spans are contiguous, in order, and show the visible part of the list |
| ListWindow.WindowIsSlice | internal/ui/render/list.go:78-113 | screen row y shows line StartLine+y, and every row the list can fill is filled |
| ListWindow.RowsOfSpan | internal/ui/render/list.go:258-311 | each span puts its own lines of its item on its own rows |
| ListWindow.CursorIsVisible | internal/ui/render/list.go:131-158 | the start line stays in bounds, moves only if it must, and an item that fits is wholly visible |
| ListWindow.CursorMovesLeast | internal/ui/render/list.go:131-158 | no nearer start line shows an item that fits |
| ListWindow.ListRenderer.Render | internal/ui/render/list.go:64-128 | all of that for one frame |
| BoxSplit.SplitSizes | internal/ui/layout/box.go:185-218 | own sizes, rounded-down shares, and the leftover to the last fill |
| BoxSplit.OwnSizeMeans | internal/ui/layout/box.go:45-66 | a fixed size is cut to what there is, a percentage rounded down |
| BoxSplit.ShareMeans | internal/ui/layout/box.go:72-86 | a fill's share is its part of what remains, rounded down |
| BoxSplit.SizeMeans | internal/ui/layout/box.go:185-218 | every size but the last fill's is its own or its share |
| BoxSplit.CoversIff | internal/ui/layout/box.go:185-218 | the sizes reach the whole length exactly when fixed sizes do or the weights sum to something positive |
| BoxSplit.FillsAddUp | internal/ui/layout/box.go:72-86 | with non-negative weights of positive sum the fills add up to exactly what remains |
| BoxSplit.BoxesTile | internal/ui/layout/box.go:99-182 | boxes are ordered, adjacent, inside, and cover the parent exactly under that condition |
| BoxSplit.V | internal/ui/layout/box.go:101-139 | box i reaches from edge i to edge i+1 |
| BoxSplit.H | internal/ui/layout/box.go:143-181 | box i reaches from edge i to edge i+1 |
| RevsetScan.ScanItems | internal/ui/revset/completion_provider.go:317-361 | a well-bracketed, quote-closed piece changes nothing but the innermost argument number, by its top-level commas; without commas nothing at all |
| RevsetCompletion.AnalyzeContext | internal/ui/revset/completion_provider.go:317-400 | computes the context |
| RevsetCompletion.CallIsRecognised | internal/ui/revset/completion_provider.go:363-400 | however many calls are open, the innermost function and the argument number are recognised |
| RevsetCompletion.MatchSourceItems | internal/ui/revset/completion_provider.go:236-250 | the items whose name begins with the token |
| RevsetOffers.CallContext | internal/ui/revset/completion_provider.go:317-400 | in a call with any arguments before the cursor the function, the argument's number, where it begins and the names given so far are recognised |
| RevsetOffers.GivenMeans | internal/ui/revset/completion_provider.go:402-412 | a name counts as given exactly when an argument before begins with it and an equals sign |
| RevsetOffers.NamedValue | internal/ui/revset/completion_provider.go:363-400 | after `name=` the value is what is completed |
| RevsetOffers.LastToken | internal/ui/revset/completion_provider.go:363-400 | otherwise the last token of the argument is |
| RevsetOffers.OutsideCalls | internal/ui/revset/completion_provider.go:301-315 | with all brackets closed the last token of the input is |
| RevsetOffers.OfferedAtStart | internal/ui/revset/completion_provider.go:105-122 | for an empty input the history and then every item is offered |
| RevsetOffers.OfferedOutside | internal/ui/revset/completion_provider.go:236-250 | every item whose name begins with the token is offered, once and in order, and no other |
| RevsetOffers.OfferedAsValue | internal/ui/revset/completion_provider.go:168-174 | after `name=` every value of that argument's list that begins with what is typed is offered |
| RevsetOffers.OfferedAsArgument | internal/ui/revset/completion_provider.go:176-234 | at an argument the labels still to be given are offered and then the values for that place |
| RevsetOffers.ParameterInPlace | internal/ui/revset/completion_provider.go:275-286 | the place among the positional parameters, a variadic one taking all places from its own on |
| RevsetOffers.ParameterByName | internal/ui/revset/completion_provider.go:288-295 | the first parameter that can be given by that name |
| RevsetCompletion.CompletionsExtend | internal/ui/revset/completion_provider.go:162-273 | every candidate replaces the end of the input by something that begins with it |
| RemoteList.ParseRemoteListOutput | internal/jj/remote_parser.go:10-23 | the first words of the lines that are not blank, the preferred one first |
| RemoteList.RemotesHaveNames | internal/jj/remote_parser.go:13-17 | whatever jj prints, no remote has an empty name |
| RemoteList.ToFrontKeeps | internal/jj/remote_parser.go:18-21 | moving the default remote to the front neither adds nor loses one |
| RevsetCompletion.AcceptKeepsTyped | internal/ui/revset/revset.go:486-507 | accepting any candidate but a history entry keeps everything typed, if the values of named arguments have names |
| RevsetCompletion.BuiltInKeepsTyped | internal/jj/source/function_source.go:171-184 | the built-in functions and the list of remotes meet that condition, so nothing typed is ever lost |
| RevsetEditor.Editor.Cycle | internal/ui/revset/revset.go:298-318 | the line shows the next or previous candidate, round and round, applied to what was typed |
| RevsetEditor.Editor.Move | internal/ui/revset/revset.go:319-350 | the same by direction |
| RevsetEditor.Editor.Preview | internal/ui/revset/revset.go:228-242 | a preview leaves the typed text alone; a named argument is accepted at once |
| RevsetEditor.Editor.Commit | internal/ui/revset/revset.go:208-217 | accepting makes the line the typed text and refreshes the candidates |
| RevsetEditor.Editor.TypedIsShown | internal/ui/revset/revset.go:228-242 | while editing the line begins with everything typed, unless a history entry is previewed |
| Flash.NextKeeps | internal/ui/flash/flash.go:52-94 | every event keeps the records |
| Flash.RecordedIff | internal/ui/flash/flash.go:59-83 | in any order of reports a command is recorded, once and with its own command and outcome, exactly when it was reported both ways and is not empty |
| Flash.RecordedExactlyOnce | internal/ui/flash/flash.go:59-83 | a command that is not empty is recorded exactly once when both its reports are in |
| Flash.HalvesAre | internal/ui/flash/flash.go:59-83 | each map holds the commands reported one way only; an id is in both exactly when its command is empty and was reported running first and then completed |
| Flash.HistoryIsLatest | internal/ui/flash/flash.go:188-213 | the history is an end of the records not deleted by hand, at most fifty, with growing ids and with all of the last fifty not deleted; without deletions it is the last fifty records |
| Flash.RemovalOfMessages | internal/ui/flash/flash.go:160-169 | expiry and deletion take out the message with that id and no other |
| Flash.NotesAndDismissal | internal/ui/flash/flash.go:52-94 | a note with something to say comes last, and the oldest message is the one dismissed |
| Flash.EmptyCommandSticks | internal/ui/flash/flash.go:70-80 | reported running and then completed, an empty command stays in both maps and is not recorded |
| Flash.EmptyCommandIsShown | internal/ui/flash/flash.go:59-66 | reported completed and then running, it is forgotten and its output shown without a command |
| Flash.Tracker.AddMessage | internal/ui/flash/flash.go:188-206 | nothing to say adds nothing; a command's message is also remembered, the last fifty of them |
| Flash.Tracker.Update | internal/ui/flash/flash.go:52-94 | one event is one step of the model |

## Left out

- Strings are sequences of characters: offsets count characters, not bytes, and input that is not valid UTF-8 is not modelled. Every character the byte-wise parsers look for is ASCII.
- Version counters, request ids and message ids are unbounded; the wrap-around of 64-bit counters is not modelled.
- Text painting (themes, colours, syntax highlighting, cell widths, wrapping) is a parameter that reads only its arguments; the highlighter's own memo tables are inside it.
- The file in the cache key is known by its place in the list; the address the source compares distinguishes at least as much.
- Cursor movement, vertical scrolling and the viewport of the review view: a move may put the cursor and the selection anywhere, so the results hold for every movement.
- `shellwords` decoding of quoted paths is a parameter of the patch parser, and so is which characters are letters or digits in the pairing score.
- PatchRoundTrip: printed patches with quoted paths in markers or rename lines and combined diffs are not covered.
- ReadRoundTripIff: lines of a hunk that starts at 0 or below on their side, which no diff prints, are not covered.
- Display lines that a handler builds to keep the cursor visible are built at its end, as its last step.
- Running jj, reading its output and the clipboard: responses are events that echo the id and revision they were asked with.
- Parsing a `when` text into an expression, and the generated table of built-in conditions, are given.
- The hints shown while a key sequence is pending (pendingContinuations), help texts and intent routing.
- Negative batch sizes and item heights, which no caller passes.
- Sgr: a colour's number is kept as given; its conversion to a terminal colour is foreign code.
- StreamProtocol: parsing between two channel operations is one step, the `Close` control message has no sender, and the parser goroutine may stay blocked after cancellation.
- BoxSplit: floating-point rounding of weights; CutTop, CutBottom, CutLeft, CutRight, Center and Inset are simple clamps.
- RevsetScan: function names are ASCII letters, digits and underscores; the source tests single bytes of other text.
- Fetching completion sources lazily and keeping them by source: the lists are given; the remotes are read from jj's output.
- Spinner, expiry timers and drawing of messages; expiry itself is an event.
- Menus, bookmark and operation views, Lua scripting, configuration and theme loading would only add simple members.
