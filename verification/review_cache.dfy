/**
 The display lines of the annotation view and the cache in front of them (internal/ui/annotation/renderer.go).
 Text painting is a parameter: it reads only the arguments it is given.
 */
module ReviewCache {
  import opened Text
  import opened PatchLines
  import opened ReviewSource
  import opened ReviewState
  import opened ReviewProtocol

  datatype DisplayLine = DisplayLine(text: string, sourceIndex: int, editor: bool)

  datatype Screen = Screen(lines: seq<DisplayLine>, editorStart: int)

  datatype Layout = Layout(width: int, scrollX: int, wrap: bool)

  /** How a theme paints a message, a diff line, line `i` of `n` of a complete file, a comment and the editor. */
  datatype Painter = Painter(error: string -> string,
                             dimmed: string -> string,
                             patchRows: (string, PatchLine, Layout) -> seq<string>,
                             fileRows: (string, string, nat, nat, Layout) -> seq<string>,
                             noteRows: (Annotation, int) -> seq<string>,
                             editorRows: string -> seq<string>)

  // ---------- the display, uncached ----------

  function Rows(texts: seq<string>, index: int, editor: bool): seq<DisplayLine> {
    seq(|texts|, i requires 0 <= i < |texts| => DisplayLine(texts[i], index, editor))
  }

  function Message(text: string): Screen { Screen([DisplayLine(text, -1, false)], -1) }

  function NoteLines(p: Painter, src: Source, notes: seq<Annotation>, n: nat, index: int, width: int): seq<DisplayLine>
    requires n <= |notes|
  {
    if n == 0 then []
    else
      NoteLines(p, src, notes, n - 1, index, width) +
      if src.ShownAfter(index, notes[n - 1]) then Rows(p.noteRows(notes[n - 1], width), -1, false) else []
  }

  function SourceRows(p: Painter, src: Source, index: nat, lay: Layout): seq<DisplayLine>
    requires index < src.Len()
  {
    var f := src.file.value;
    Rows(if src.presentation.FileView? then p.fileRows(f.path, f.content[index], index, |f.content|, lay)
         else p.patchRows(f.path, src.PatchLinesOf()[index], lay), index, false)
  }

  /** What the builders read besides the source: the comments of the file, the layout and, while editing, the editor. */
  datatype Inputs = Inputs(notes: seq<Annotation>, lay: Layout, editorAt: Option<int>, draft: string)

  /** Everything shown for line `index`: its rows, then its comments, then the editor if it sits there. */
  function LineBlock(p: Painter, src: Source, ins: Inputs, index: nat): seq<DisplayLine>
    requires index < src.Len()
  {
    SourceRows(p, src, index, ins.lay) + NoteLines(p, src, ins.notes, |ins.notes|, index, ins.lay.width)
  }

  function BodyUpTo(p: Painter, src: Source, ins: Inputs, n: nat): Screen
    requires n <= src.Len()
  {
    if n == 0 then Screen([], -1)
    else
      var before := BodyUpTo(p, src, ins, n - 1);
      var lines := before.lines + LineBlock(p, src, ins, n - 1);
      if ins.editorAt == Some(n - 1) then Screen(lines + Rows(p.editorRows(ins.draft), -1, true), |lines|)
      else Screen(lines, before.editorStart)
  }

  function InputsOf(s: State, width: int): Inputs {
    Inputs(s.store.ForFile(s.doc.revision, s.doc.CurrentPath(), |s.store.items|),
           Layout(width, s.view.scrollX, s.view.wrap),
           if s.view.editing then Some(s.view.SelectedTo()) else None, if s.view.editing then s.view.draft else "")
  }

  /** buildDisplayLinesUncached. */
  function Display(p: Painter, s: State, width: int): Screen {
    var src := s.doc.Shown();
    if s.doc.loading then Message("Loading annotation view...")
    else if s.doc.err.Some? then Message(p.error(s.doc.err.value))
    else if src.file.None? then Message("(no files)")
    else if src.presentation.FileView? && src.file.value.contentErr.Some? then
      Message(p.error(src.file.value.contentErr.value))
    else if src.presentation.FileView? && !src.file.value.contentLoaded then Message("Loading complete file...")
    else if src.presentation.DiffView? && src.Len() == 0 then
      Message(p.dimmed("(unchanged file; press v to view the complete file)"))
    else BodyUpTo(p, src, InputsOf(s, width), src.Len())
  }

  // ---------- version discipline ----------

  /** Same document as far as the display reads it. */
  predicate SameSource(d: Document, e: Document) {
    e == d.(loadingRevision := e.loadingRevision, loading := e.loading)
  }

  /** Versions never go back; while one stands still, so does what it stands for. */
  ghost predicate Follows(s: State, t: State) {
    StoreGrows(s.store, t.store) && t.view.sourceVersion >= s.view.sourceVersion &&
    (t.view.sourceVersion == s.view.sourceVersion ==> SameSource(s.doc, t.doc))
  }

  lemma FollowsTwice(s: State, t: State, u: State)
    requires Follows(s, t) && Follows(t, u)
    ensures Follows(s, u)
  {
  }

  lemma JumpInFileFollows(s: State)
    ensures Follows(s, JumpInFile(s).state)
  {
  }

  lemma FallBackFollows(s: State)
    ensures Follows(s, FallBack(s).state)
  {
    JumpInFileFollows(s);
  }

  lemma JumpFollows(s: State)
    ensures Follows(s, JumpToFocused(s).state)
  {
    JumpInFileFollows(s);
    var f := FocusedFile(s);
    if f.Some? {
      var t := InFileView(AtFile(s, f.value));
      assert Follows(s, t);
      FallBackFollows(t);
      FollowsTwice(s, t, FallBack(t).state);
    }
  }

  lemma LoadedFollows(s: State, m: RevisionMsg)
    ensures Follows(s, OnRevisionLoaded(s, m).state)
  {
    if Accepts(s, m) {
      var done := LoadDone(s);
      assert Follows(s, done);
      var t := ShowRevision(done, m);
      assert Follows(s, t) && Follows(s, ShowError(done, m));
      JumpFollows(t);
      FollowsTwice(s, t, AfterLoad(t).state);
    }
  }

  lemma FileLoadedFollows(s: State, m: FileMsg)
    ensures Follows(s, OnFileLoaded(s, m).state)
  {
    var index := FileIndex(s.doc.files, m.path, 0);
    if m.changeId == s.doc.revision && index >= 0 {
      var t := WithContent(s, index, m);
      JumpFollows(t);
      FollowsTwice(s, t, JumpToFocused(t).state);
    }
  }

  lemma SelectFollows(s: State, revision: string)
    ensures Follows(s, SelectRevision(s, revision).state)
  {
  }

  lemma TargetsFollow(s: State, m: TargetsMsg)
    ensures Follows(s, OnTargetsLoaded(s, m).state)
  {
    var t := s.(req := s.req.(targets := 0));
    var targets := NotRoot(m.targets, |m.targets|);
    if |targets| == 1 { SelectFollows(ClearFocus(t), targets[0]); }
  }

  lemma ThenJumpFollows(s: State, t: State)
    requires Follows(s, t)
    ensures Follows(s, JumpToFocused(t).state)
  {
    JumpFollows(t);
    FollowsTwice(s, t, JumpToFocused(t).state);
  }

  lemma ThenSelectFollows(s: State, t: State, revision: string)
    requires Follows(s, t)
    ensures Follows(s, SelectRevision(t, revision).state)
  {
    SelectFollows(t, revision);
    FollowsTwice(s, t, SelectRevision(t, revision).state);
  }

  lemma CommentPickedFollows(s: State, id: Option<int>)
    ensures Follows(s, OnCommentPicked(s, id).state)
  {
    if id.Some? && s.store.Find(id.value).Some? {
      var a := s.store.Find(id.value).value;
      var t := s.(doc := s.doc.(presentation := DiffView),
                  view := s.view.(sourceVersion := s.view.sourceVersion + 1, focused := a.id));
      assert Follows(s, t);
      ThenJumpFollows(s, t);
      ThenSelectFollows(s, t, a.changeId);
    }
  }

  lemma RevisionPickedFollows(s: State, revision: string)
    ensures Follows(s, OnRevisionPicked(s, revision).state)
  {
    SelectFollows(ClearFocus(s), revision);
  }

  lemma AddFollows(s: State)
    ensures Follows(s, OnAdd(s).state)
  {
  }

  lemma DeleteFollows(s: State)
    ensures Follows(s, OnDelete(s).state)
  {
    var at := AnnotationsAtCursor(s);
    if |at| == 1 { StoreStepsGrow(s.store, at[0], at[0].id, ""); }
  }

  lemma SaveFollows(s: State)
    requires s.view.editing ==> s.doc.CurrentFile().Some?
    ensures Follows(s, OnSave(s).state)
  {
    if s.view.editing { SavedGrows(s); }
  }

  lemma NavigateFollows(s: State, delta: int, child: bool)
    ensures Follows(s, OnNavigateFile(s, delta).state) && Follows(s, OnNavigateRevision(s, child).state)
    ensures Follows(s, OnTogglePresentation(s).state)
  {
  }

  lemma ViewFollows(s: State, i: Intent)
    requires EditorHasFile(s) && (ViewIntent(i) || i.ClearNotes? || i.CopyNotes?)
    ensures Follows(s, OnIntent(s, i).state)
  {
  }

  lemma IntentFollows(s: State, i: Intent)
    requires EditorHasFile(s)
    ensures Follows(s, OnIntent(s, i).state)
  {
    if ViewIntent(i) || i.ClearNotes? || i.CopyNotes? {
      ViewFollows(s, i);
    } else if i.AddNote? {
      AddFollows(s);
    } else if i.DeleteNote? {
      DeleteFollows(s);
    } else if i.EditorSave? {
      SaveFollows(s);
    } else {
      NavigateFollows(s, if i.FileNavigate? then i.delta else 0, if i.RevisionNavigate? then i.child else false);
    }
  }

  /** Every message and intent keeps the version discipline. */
  lemma ApplyFollows(s: State, e: Event)
    requires EditorHasFile(s)
    ensures Follows(s, Apply(s, e).state)
  {
    match e
    case User(i) => IntentFollows(s, i);
    case RevisionLoaded(m) => LoadedFollows(s, m);
    case TargetsLoaded(m) => TargetsFollow(s, m);
    case FileLoaded(m) => FileLoadedFollows(s, m);
    case CommentPicked(id) => CommentPickedFollows(s, id);
    case RevisionPicked(change) => RevisionPickedFollows(s, change);
    case _ =>
  }

  lemma StepFollows(first: World, w: World, e: Event, w': World)
    requires Follows(first.state, w.state) && Steps(w, e, w')
    ensures Follows(first.state, w'.state)
  {
    ApplyFollows(w.state, e);
    FollowsTwice(first.state, w.state, w'.state);
  }

  ghost function Later(): (World, World) -> bool { (a: World, b: World) => Follows(a.state, b.state) }

  /** In any run a later state follows an earlier one. */
  lemma RunFollows(ws: seq<World>, es: seq<Event>, i: nat, j: nat)
    requires IsRun(ws, es) && i <= j <= |es|
    ensures Follows(ws[i].state, ws[j].state)
  {
    forall a, b, e, c | Later()(a, b) && OneStep()(b, e, c) ensures Later()(a, c) { StepFollows(a, b, e, c); }
    Chain(Later(), OneStep(), ws, es, i, j);
  }

  // ---------- the cache key decides the display ----------

  // The file is known by its place in the list, which is coarser than the address the source compares.
  datatype Key = Key(file: Option<int>, sourceVersion: nat, storeVersion: nat, presentation: Presentation,
                     loading: bool, lay: Layout)

  function KeyOf(s: State, width: int): Key {
    Key(if s.doc.CurrentFile().Some? then Some(s.doc.file) else None, s.view.sourceVersion, s.store.version,
        s.doc.presentation, s.doc.loading, Layout(width, s.view.scrollX, s.view.wrap))
  }

  lemma KeyDecides(p: Painter, s: State, t: State, width: int, width': int)
    requires Follows(s, t) && KeyOf(s, width) == KeyOf(t, width') && !s.view.editing && !t.view.editing
    ensures Display(p, s, width) == Display(p, t, width')
  {
    assert s.store.items == t.store.items && SameSource(s.doc, t.doc);
    SameNotes(s.store, t.store, s.doc.revision, s.doc.CurrentPath(), |s.store.items|);
    assert InputsOf(s, width) == InputsOf(t, width');
  }

  lemma {:induction false} SameNotes(a: Store, b: Store, change: string, file: string, n: nat)
    requires a.items == b.items && n <= |a.items|
    ensures a.ForFile(change, file, n) == b.ForFile(change, file, n)
  {
    if n > 0 { SameNotes(a, b, change, file, n - 1); }
  }

  /** In any run, two moments outside the editor with the same key show the same lines. */
  lemma CacheIsFresh(p: Painter, ws: seq<World>, es: seq<Event>, i: nat, j: nat, width: int, width': int)
    requires IsRun(ws, es) && i <= j <= |es|
    requires !ws[i].state.view.editing && !ws[j].state.view.editing &&
             KeyOf(ws[i].state, width) == KeyOf(ws[j].state, width')
    ensures Display(p, ws[i].state, width) == Display(p, ws[j].state, width')
  {
    RunFollows(ws, es, i, j);
    KeyDecides(p, ws[i].state, ws[j].state, width, width');
  }
}
