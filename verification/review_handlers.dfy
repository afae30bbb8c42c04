/** Where each message and intent leads the annotation view (internal/ui/annotation/model.go). */
module ReviewHandlers {
  import opened Text
  import opened PatchLines
  import opened ReviewSource
  import opened ReviewState
  import opened ReviewProtocol
  import opened ReviewNotes

  // ---------- the start ----------

  /** A fresh view waits for its revision, if it was given one, and shows nothing. */
  lemma FreshView(online: bool, revision: string, w: World)
    requires w == Start(online, revision)
    ensures w.state.doc == Document(revision, "", "", [], 0, DiffView, revision != "", None)
    ensures w.state.store.items == [] && !w.state.confirming && w.state.online == online
    ensures w.state.view.cursor == 0 && w.state.view.selectionAnchor == -1 && w.state.view.scrollX == 0 &&
            !w.state.view.wrap
    ensures !w.state.view.editing && w.state.view.draft == "" && w.state.view.focused == 0
    ensures w.issued == if online && revision != "" then map[1 := revision] else map[]
  {
  }

  // ---------- turning to another revision ----------

  /**
   A revision is loaded exactly when commands can run, it is neither shown nor on its way, and no comment is being
   edited.
   */
  lemma SelectLoadsIff(s: State, revision: string, o: Outcome)
    requires o == SelectRevision(s, revision)
    ensures o.cmd.LoadRevision? <==>
            s.online && revision != "" && revision != s.doc.revision && revision != s.doc.loadingRevision &&
            !s.view.editing
    ensures o.cmd.LoadRevision? ==>
              o.cmd == LoadRevision(s.req.next + 1, revision, s.doc.presentation.FileView?) &&
              o.state.doc == s.doc.(loadingRevision := revision) && o.state.req.load == s.req.next + 1
    ensures !o.cmd.LoadRevision? ==> o.state.doc == s.doc && o.state.req.load == s.req.load
    ensures o.cmd.Notice? <==> revision != s.doc.revision && s.view.editing
    ensures o.cmd.LoadRevision? || o.cmd.Notice? || o.cmd.Nothing?
    ensures o.state.view == s.view && o.state.store == s.store
  {
  }

  /** A revision picked from the list gives up the focus, unless a comment of another revision is being edited. */
  lemma RevisionPickedMeans(s: State, revision: string, o: Outcome)
    requires o == OnRevisionPicked(s, revision)
    ensures revision == "" ==> o == Outcome(s, Notice("Revision not found"))
    ensures revision != "" && revision != s.doc.revision && s.view.editing ==>
              o == Outcome(s, Notice("Finish editing the comment before navigating revisions"))
    ensures revision != "" && !(revision != s.doc.revision && s.view.editing) ==>
              o.state.view == s.view.(focused := 0) && o == SelectRevision(s.(view := s.view.(focused := 0)), revision)
  {
  }

  function OtherThanRoot(): string -> bool { (t: string) => t != "zzzzzzzz" }

  lemma {:induction false} NotRootIsFilter(targets: seq<string>, n: nat)
    requires n <= |targets|
    ensures NotRoot(targets, n) == Filter(OtherThanRoot(), targets[..n])
  {
    if n > 0 {
      NotRootIsFilter(targets, n - 1);
      FilterSnoc(OtherThanRoot(), targets, n - 1);
    }
  }

  /** The parents or children found, the root aside: none is ignored, one is turned to, several are offered. */
  lemma TargetsMean(s: State, m: TargetsMsg, o: Outcome, targets: seq<string>)
    requires o == OnTargetsLoaded(s, m) && targets == Filter(OtherThanRoot(), m.targets)
    ensures m.requestId == 0 || m.requestId != s.req.targets || m.changeId != s.doc.revision ==>
              o == Outcome(s, Nothing)
    ensures m.requestId != 0 && m.requestId == s.req.targets && m.changeId == s.doc.revision ==>
              (m.err.Some? ==> o.cmd == Notice(m.err.value) && o.state == s.(req := s.req.(targets := 0))) &&
              (m.err.None? && |targets| == 0 ==> o.cmd == Nothing && o.state == s.(req := s.req.(targets := 0))) &&
              (m.err.None? && |targets| == 1 ==>
                 o == SelectRevision(s.(req := s.req.(targets := 0), view := s.view.(focused := 0)), targets[0])) &&
              (m.err.None? && |targets| > 1 ==> o.cmd == OpenPicker && o.state == s.(req := s.req.(targets := 0)))
  {
    NotRootIsFilter(m.targets, |m.targets|);
    Empties(m.targets);
  }

  /**
   Parents or children are asked for of the revision shown, unless a comment is edited or a revision is on its way.
   */
  lemma NavigateRevisionMeans(s: State, child: bool, o: Outcome)
    requires o == OnNavigateRevision(s, child)
    ensures o.cmd.LoadTargets? <==> s.online && s.doc.revision != "" && !s.view.editing && s.doc.loadingRevision == ""
    ensures o.cmd.LoadTargets? ==>
              o.cmd == LoadTargets(s.req.next + 1, s.doc.revision, child) && o.state.req.targets == s.req.next + 1
    ensures o.cmd.Notice? <==> s.view.editing
    ensures o.state == s.(req := o.state.req)
  {
  }

  // ---------- showing a file ----------

  /** At the top of the source: the first line that can be commented, nothing selected, no editor. */
  ghost predicate AtTop(s: State) {
    var src := s.doc.Shown();
    s.view.selectionAnchor == -1 && s.view.scrollX == 0 && !s.view.editing &&
    (if exists i :: src.Commentable(i)
     then src.Commentable(s.view.cursor) && forall i :: 0 <= i < s.view.cursor ==> !src.Commentable(i)
     else s.view.cursor == 0)
  }

  lemma {:induction false} FirstCommentableMeans(src: Source, i: nat)
    requires i <= src.Len() && forall k :: 0 <= k < i ==> !src.Commentable(k)
    ensures var c := FirstCommentable(src, i);
            if exists k :: src.Commentable(k) then src.Commentable(c) && forall k :: 0 <= k < c ==> !src.Commentable(k)
            else c == 0
    decreases src.Len() - i
  {
    if i < src.Len() && !src.Commentable(i) { FirstCommentableMeans(src, i + 1); }
  }

  lemma ResetIsAtTop(s: State)
    ensures AtTop(ResetPosition(s)) && ResetPosition(s).doc == s.doc && ResetPosition(s).store == s.store
    ensures ResetPosition(s).view.focused == s.view.focused
  {
    FirstCommentableMeans(s.doc.Shown(), 0);
  }

  /** The complete text of the file shown is asked for exactly when it is neither there nor known to fail. */
  lemma LoadFileIff(s: State)
    ensures var f := s.doc.CurrentFile();
            LoadCurrentFile(s) ==
            if s.online && f.Some? && !f.value.contentLoaded && f.value.contentErr.None?
            then LoadFile(s.doc.revision, f.value.path) else Nothing
  {
  }

  /** File `index` is shown from its top, without focus; complete files fetch their text. */
  ghost predicate Turned(s: State, o: Outcome, index: int) {
    o.state.doc == s.doc.(file := index) && o.state.store == s.store && AtTop(o.state) && o.state.view.focused == 0 &&
    o.cmd == if s.doc.presentation.FileView? then LoadCurrentFile(o.state) else Nothing
  }

  /** The next or previous file, round and round. */
  lemma NavigateFileMeans(s: State, delta: int, o: Outcome)
    requires o == OnNavigateFile(s, delta)
    ensures s.doc.files == [] || delta == 0 ==> o == Outcome(s, Nothing)
    ensures s.doc.files != [] && delta != 0 ==>
              exists k {:trigger k * |s.doc.files|} :: 0 <= s.doc.file + delta - k * |s.doc.files| < |s.doc.files| &&
                                                         Turned(s, o, s.doc.file + delta - k * |s.doc.files|)
  {
    var n := |s.doc.files|;
    if n > 0 && delta != 0 {
      var i, k := (s.doc.file + delta) % n, (s.doc.file + delta) / n;
      ResetIsAtTop(ClearFocus(s.(doc := s.doc.(file := i))));
      assert s.doc.file + delta - k * n == i;
    }
  }

  lemma {:induction false} FileIndexMeans(files: seq<FileItem>, path: string, i: nat)
    requires i <= |files|
    ensures var k := FileIndex(files, path, i);
            if k == -1 then forall j :: i <= j < |files| ==> files[j].path != path
            else k < |files| && files[k].path == path && forall j :: i <= j < k ==> files[j].path != path
    decreases |files| - i
  {
    if i < |files| && files[i].path != path { FileIndexMeans(files, path, i + 1); }
  }

  ghost predicate IsFirstWith(files: seq<FileItem>, path: string, i: int) {
    0 <= i < |files| && files[i].path == path && forall j :: 0 <= j < i ==> files[j].path != path
  }

  /** A file picked by its path: the first one with it. */
  lemma FilePickedMeans(s: State, path: string, o: Outcome)
    requires o == OnFilePicked(s, path)
    ensures (forall f :: f in s.doc.files ==> f.path != path) ==> o == Outcome(s, Nothing)
    ensures forall i :: IsFirstWith(s.doc.files, path, i) ==> Turned(s, o, i)
  {
    FileIndexMeans(s.doc.files, path, 0);
    var k := FileIndex(s.doc.files, path, 0);
    if k >= 0 { ResetIsAtTop(ClearFocus(s.(doc := s.doc.(file := k)))); }
  }

  /** The other presentation of the same file, from its top. */
  lemma ToggleMeans(s: State, o: Outcome)
    requires o == OnTogglePresentation(s)
    ensures o.state.doc == s.doc.(presentation := if s.doc.presentation.FileView? then DiffView else FileView)
    ensures AtTop(o.state) && o.state.view.focused == 0 && o.state.store == s.store
    ensures o.cmd == if s.doc.presentation.DiffView? then LoadCurrentFile(o.state) else Nothing
  {
    ResetIsAtTop(ClearFocus(s.(doc := o.state.doc)));
  }

  // ---------- jumping to a comment ----------

  /** The focused comment, if it is on the revision shown. */
  ghost predicate Focuses(s: State, a: Annotation) {
    s.store.Find(s.view.focused) == Some(a) && a.changeId == s.doc.revision
  }

  /** The place of the comment in file `index` under the presentation. */
  function PlaceOf(s: State, index: nat, presentation: Presentation, a: Annotation): Option<nat>
    requires index < |s.doc.files|
  {
    Source(Some(s.doc.files[index]), presentation).AnchorOf(a)
  }

  ghost predicate AtPlace(s: State, o: Outcome, index: nat, presentation: Presentation, at: nat) {
    o.state.doc == s.doc.(file := index, presentation := presentation) && o.cmd == Nothing &&
    o.state.store == s.store &&
    o.state.view.cursor == at && o.state.view.selectionAnchor == -1 && o.state.view.scrollX == 0 &&
    o.state.view.focused == s.view.focused
  }

  ghost predicate GivesUp(s: State, o: Outcome, index: nat, text: string) {
    o.state.doc == s.doc.(file := index, presentation := FileView) && o.cmd == Notice(text) &&
    o.state.store == s.store &&
    o.state.view.focused == 0
  }

  function WhyNot(f: FileItem): string {
    if f.contentErr.Some? then "Annotation file could not be loaded: " + f.contentErr.value
    else "Annotation location is unavailable"
  }

  lemma JumpInFileMeans(s: State, a: Annotation, index: nat, o: Outcome)
    requires Focuses(s, a) && index < |s.doc.files| && index == FileIndex(s.doc.files, a.file, 0)
    requires s.doc.presentation.FileView? && o == JumpInFile(s)
    ensures match PlaceOf(s, index, FileView, a)
            case Some(at) => AtPlace(s, o, index, FileView, at)
            case None => GivesUp(s, o, index, WhyNot(s.doc.files[index]))
  {
    FileIndexMeans(s.doc.files, a.file, 0);
  }

  /**
   From the diff: to the comment's line in it; or else to its line in the complete file; or, if that has to be loaded
   first, to the complete file, keeping the focus until the text comes; and if all fails the focus is given up.
   */
  lemma JumpMeans(s: State, a: Annotation, index: nat, o: Outcome)
    requires Focuses(s, a) && index < |s.doc.files| && index == FileIndex(s.doc.files, a.file, 0)
    requires s.doc.presentation.DiffView? && o == JumpToFocused(s)
    ensures var f, inDiff, inFile := s.doc.files[index], PlaceOf(s, index, DiffView, a), PlaceOf(s, index, FileView, a);
            if inDiff.Some? then AtPlace(s, o, index, DiffView, inDiff.value)
            else if f.contentLoaded && inFile.Some? then AtPlace(s, o, index, FileView, inFile.value)
            else if !f.contentLoaded && f.contentErr.None? && s.online then
              o.state.doc == s.doc.(file := index, presentation := FileView) && AtTop(o.state) &&
              o.state.view.focused == s.view.focused && o.cmd == LoadFile(s.doc.revision, f.path)
            else GivesUp(s, o, index, WhyNot(f))
  {
    FileIndexMeans(s.doc.files, a.file, 0);
    if PlaceOf(s, index, DiffView, a).None? {
      var t := InFileView(AtFile(s, index));
      ResetIsAtTop(AtFile(s, index).(doc := t.doc));
      if s.doc.files[index].contentLoaded { JumpInFileMeans(t, a, index, JumpInFile(t)); }
    }
  }

  /** Without its file, or on another revision, the focus is given up. */
  lemma JumpWithoutFile(s: State, o: Outcome)
    requires o == JumpToFocused(s)
    ensures (forall a :: !Focuses(s, a)) ==> o == Outcome(s.(view := s.view.(focused := 0)), Nothing)
    ensures forall a :: Focuses(s, a) && (forall f :: f in s.doc.files ==> f.path != a.file) ==>
              o == Outcome(s.(view := s.view.(focused := 0)), Notice("Annotation file is unavailable"))
  {
    var f := s.store.Find(s.view.focused);
    if f.Some? && f.value.changeId == s.doc.revision {
      assert Focuses(s, f.value);
      FileIndexMeans(s.doc.files, f.value.file, 0);
    }
  }

  /** A comment picked from the list is focused in the diff and jumped to, or its revision is turned to. */
  lemma CommentPickedMeans(s: State, id: Option<int>, o: Outcome, t: State)
    requires o == OnCommentPicked(s, id)
    requires id.Some? ==>
               t == s.(doc := s.doc.(presentation := DiffView),
                       view := s.view.(sourceVersion := s.view.sourceVersion + 1, focused := id.value))
    ensures id.None? || s.store.Find(id.value).None? ==> o == Outcome(s, Notice("Annotation not found"))
    ensures id.Some? && s.store.Find(id.value).Some? ==>
              var a := s.store.Find(id.value).value;
              if a.changeId == s.doc.revision && !s.doc.loading then o == JumpToFocused(t)
              else if a.changeId != s.doc.revision && s.view.editing
                   then o == Outcome(s, Notice("Finish editing the comment before navigating revisions"))
              else o == SelectRevision(t, a.changeId)
  {
    if id.Some? { FindMeans(s.store, id.value); }
  }

  // ---------- what has been loaded ----------

  /** A complete text, or why there is none, is kept with its file; no other file changes. */
  lemma FileLoadedMeans(s: State, m: FileMsg, o: Outcome, index: nat)
    requires o == OnFileLoaded(s, m) && index < |s.doc.files|
    ensures m.changeId != s.doc.revision ==> o == Outcome(s, Nothing)
    ensures m.changeId == s.doc.revision && index == FileIndex(s.doc.files, m.path, 0) ==>
              |o.state.doc.files| == |s.doc.files| && o.state.doc.files[index].contentErr == m.err &&
              o.state.doc.files[index].contentLoaded == m.err.None? &&
              o.state.doc.files[index].content == if m.err.None? then m.content else s.doc.files[index].content
    ensures index != FileIndex(s.doc.files, m.path, 0) ==>
              |o.state.doc.files| == |s.doc.files| && o.state.doc.files[index] == s.doc.files[index]
  {
    var k := FileIndex(s.doc.files, m.path, 0);
    FileLoadedOutcome(s, m, k);
  }

  /**
   The revision waited for: its files are shown from the top of the first; a failure is shown in place of the document
   on the first load and only reported later; neither displaces an open editor.
   */
  lemma RevisionLoadedMeans(s: State, m: RevisionMsg, o: Outcome)
    requires o == OnRevisionLoaded(s, m) && Accepts(s, m)
    ensures s.doc.loadingRevision != "" && s.view.editing ==>
              o == Outcome(LoadDone(s), Notice("Finish editing the comment before navigating revisions"))
    ensures s.doc.loadingRevision != "" && !s.view.editing && m.err.Some? ==>
              o.cmd == Notice(m.err.value) && o.state.view == s.view.(focused := 0) &&
              o.state.doc == s.doc.(loading := false, loadingRevision := "")
    ensures s.doc.loadingRevision == "" && m.err.Some? ==>
              o.cmd == Nothing && o.state.doc.err == m.err && o.state.doc.files == [] &&
              o.state.doc.revision == m.changeId
    ensures Replaces(s, m) ==>
              o.state.doc.files == m.files && o.state.doc.revision == m.changeId && o.state.doc.err.None? &&
              o.state.doc.description == m.description && !o.state.doc.loading && o.state.doc.loadingRevision == ""
    ensures Replaces(s, m) && s.view.focused == 0 ==>
              o.state.doc.file == 0 && AtTop(o.state) &&
              o.cmd == if s.doc.presentation.FileView? then LoadCurrentFile(o.state) else Nothing
  {
    if Replaces(s, m) {
      var t := LoadDone(s);
      var shown :=
        t.(doc := t.doc.(revision := m.changeId, description := m.description, err := None, files := m.files,
                         file := 0));
      ResetIsAtTop(shown);
      JumpMoves(ShowRevision(t, m));
    }
  }

  // ---------- the rest ----------

  /** Closing needs no question exactly when there are no comments or they were copied as they are. */
  lemma CloseMeans(s: State, o: Outcome)
    requires EditorHasFile(s) && o == Apply(s, CloseRequested)
    ensures s.store.items == [] || s.store.version == s.copiedVersion ==> o == Outcome(s, CloseView)
    ensures !(s.store.items == [] || s.store.version == s.copiedVersion) ==>
              o == Outcome(s.(confirming := true), Nothing)
    ensures Apply(s, ConfirmationClosed) == Outcome(s.(confirming := false), Nothing)
  {
  }

  /** A click goes to a line that can be commented; the wheel scrolls sideways, not below 0 and not wrapped text. */
  lemma PointerMeans(s: State, index: int, keep: bool, delta: int)
    requires EditorHasFile(s)
    ensures var o := Apply(s, LineClicked(index, keep));
            o.cmd == Nothing &&
            if s.confirming || s.view.editing || !s.doc.Shown().Commentable(index) then o.state == s
            else
              o.state ==
              s.(view := s.view.(cursor := index, selectionAnchor := -1, focused := if keep then s.view.focused else 0))
    ensures Apply(s, Wheel(delta)) ==
            Outcome(if s.confirming || s.view.wrap then s
                    else s.(view := s.view.(scrollX := Max(0, s.view.scrollX + delta))),
                    Nothing)
  {
  }

  /** Typing reaches an open editor only; leaving it drops the selection and keeps the text. */
  lemma EditorMeans(s: State, draft: string)
    requires EditorHasFile(s)
    ensures Apply(s, Typed(draft)) ==
              Outcome(if s.view.editing then s.(view := s.view.(draft := draft)) else s, Nothing)
    ensures !s.confirming ==>
              OnIntent(s, EditorCancel) ==
                Outcome(s.(view := s.view.(editing := false, selectionAnchor := -1)), Nothing)
    ensures !s.confirming && s.view.editing ==> OnIntent(s, Cancel) == OnIntent(s, EditorCancel)
    ensures !s.confirming && !s.view.editing ==> OnIntent(s, Cancel) == Outcome(s, CloseView)
  {
  }

  /** A single comment at the cursor is opened for change; on a free line a new one is begun; several are offered. */
  lemma AddPressed(s: State, o: Outcome)
    requires o == OnAdd(s)
    ensures var at := AnnotationsAtCursor(s);
            (|at| == 1 ==>
               o.state == s.(view := s.view.(editing := true, draft := at[0].comment, focused := at[0].id)) &&
               o.cmd == Nothing) &&
            (|at| == 0 && s.doc.Shown().Commentable(s.view.cursor) ==>
               o.state == s.(view := s.view.(editing := true, draft := "", focused := 0)) && o.cmd == Nothing) &&
            (|at| == 0 && !s.doc.Shown().Commentable(s.view.cursor) ==>
               o.state == s.(view := s.view.(focused := o.state.view.focused)) && o.cmd == Nothing) &&
            (|at| > 1 ==> o.state == s.(view := s.view.(focused := o.state.view.focused)) && o.cmd == OpenPicker)
    ensures !o.state.view.editing ==>
              o.state.view.focused == if s.store.Find(s.view.focused).Some? then s.view.focused else 0
  {
  }

  /** What the pickers say when there is nothing to pick, and what the other intents change. */
  lemma OtherIntents(s: State, i: Intent, o: Outcome)
    requires EditorHasFile(s) && !s.confirming && o == OnIntent(s, i)
    ensures i.OpenFilePicker? ==> o == Outcome(s, if s.doc.loading then Notice("File picker is still loading")
                                                  else if s.doc.files == [] then Notice("No changed files found")
                                                  else OpenPicker)
    ensures i.OpenCommentPicker? ==>
              o == Outcome(s, if s.store.items == [] then Notice("No annotations") else OpenPicker)
    ensures i.ToggleWrap? ==> o == Outcome(s.(view := s.view.(wrap := !s.view.wrap, scrollX := 0)), Nothing)
    ensures i.Move? ==> o.cmd == Nothing &&
                        o.state == s.(view := s.view.(cursor := i.cursor, selectionAnchor := i.selectionAnchor,
                                                      focused := if i.keepFocus then s.view.focused else 0))
    ensures i.ScrollHorizontal? ==> o == Apply(s, Wheel(i.delta))
  {
  }
}
