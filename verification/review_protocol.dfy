/**
 Runs of the annotation view: load responses arrive in any order, any number of times or not at all,
 mixed with whatever the user does.
 */
module ReviewProtocol {
  import opened Text
  import opened ReviewSource
  import opened ReviewState

  /**
   The view together with what has happened so far: which load id was issued for which revision, the
   response the files came from, the responses delivered - for revisions and for single files -, the ids taken as
   answers, the notes last copied.
   */
  datatype World = World(state: State, issued: map<nat, string>, origin: Option<RevisionMsg>,
                         delivered: seq<RevisionMsg>,
                         contents: seq<FileMsg>, taken: seq<nat>, copied: seq<Annotation>)

  function Issue(issued: map<nat, string>, cmd: Cmd): map<nat, string> {
    if cmd.LoadRevision? then issued[cmd.id := cmd.revision] else issued
  }

  /** A fresh view after its Init has asked for the first revision. */
  function Start(online: bool, revision: string): World {
    var o := LoadRevisionStep(New(online, revision), revision);
    World(o.state, Issue(map[], o.cmd), None, [], [], [], [])
  }

  /** A load response echoes an id that was issued and the revision it was issued for. */
  predicate Possible(w: World, e: Event) {
    e.RevisionLoaded? ==> e.revision.requestId in w.issued && e.revision.changeId == w.issued[e.revision.requestId]
  }

  /** The response replaces the document's files. */
  predicate Replaces(s: State, m: RevisionMsg) {
    Accepts(s, m) && m.err.None? && !(s.doc.loadingRevision != "" && s.view.editing)
  }

  function Next(w: World, e: Event): World
    requires EditorHasFile(w.state)
  {
    var o := Apply(w.state, e);
    World(o.state, Issue(w.issued, o.cmd),
          if e.RevisionLoaded? && Replaces(w.state, e.revision) then Some(e.revision) else w.origin,
          if e.RevisionLoaded? then w.delivered + [e.revision] else w.delivered,
          if e.FileLoaded? then w.contents + [e.content] else w.contents,
          if e.RevisionLoaded? && Accepts(w.state, e.revision) then w.taken + [e.revision.requestId] else w.taken,
          if o.cmd.Copy? then o.cmd.annotations else w.copied)
  }

  // ---------- what every step keeps ----------

  /** An open editor has a current file; while the first revision loads there are no files. */
  predicate EditorHasFile(s: State) {
    (s.view.editing ==> s.doc.CurrentFile().Some?) && (s.doc.loading ==> s.doc.files == [])
  }

  /** The outstanding load is for the revision the view waits for, and was never answered. */
  ghost predicate LoadsKnown(w: World) {
    var s := w.state;
    (forall id :: id in w.issued ==> 0 < id <= s.req.next) &&
    (s.req.load != 0 ==>
       s.req.load in w.issued && w.issued[s.req.load] == Expected(s) &&
       (s.doc.loading || s.doc.loadingRevision != "")) &&
    (s.doc.loadingRevision != "" ==> s.req.load != 0)
  }

  ghost predicate TakenOnce(w: World) {
    (forall i :: 0 <= i < |w.taken| ==> 0 < w.taken[i] <= w.state.req.next && w.taken[i] != w.state.req.load) &&
    forall i, j :: 0 <= i < j < |w.taken| ==> w.taken[i] != w.taken[j]
  }

  /**
   The complete text shown for a file is the one it was loaded with, or a delivered response for this revision and path.
   */
  ghost predicate ContentKnown(f: FileItem, loaded: FileItem, revision: string, contents: seq<FileMsg>) {
    f.contentLoaded ==>
      ((loaded.contentLoaded && f.content == loaded.content) ||
       exists m :: m in contents && m.changeId == revision && m.path == f.path && m.err.None? && f.content == m.content)
  }

  /** The files of a load, with complete texts delivered for it. */
  ghost predicate FilesFrom(files: seq<FileItem>, loaded: seq<FileItem>, revision: string, contents: seq<FileMsg>) {
    |files| == |loaded| &&
    forall i :: 0 <= i < |files| ==>
      files[i].path == loaded[i].path && files[i].patch == loaded[i].patch &&
      ContentKnown(files[i], loaded[i], revision, contents)
  }

  /** The files shown are none, or those of a successful delivered load of the current revision. */
  ghost predicate FilesMatchRevision(w: World) {
    var d := w.state.doc;
    d.files == [] ||
    (w.origin.Some? && w.origin.value in w.delivered && w.origin.value.err.None? &&
     w.origin.value.changeId == d.revision && FilesFrom(d.files, w.origin.value.files, d.revision, w.contents))
  }

  ghost predicate CopyKnown(w: World) {
    w.state.copiedVersion <= w.state.store.version &&
    (w.state.copiedVersion == w.state.store.version ==> w.state.store.items == w.copied)
  }

  ghost predicate Inv(w: World) {
    EditorHasFile(w.state) && LoadsKnown(w) && TakenOnce(w) && FilesMatchRevision(w) && CopyKnown(w) &&
    IdsGrow(w.state.store)
  }

  lemma StartIsGood(online: bool, revision: string)
    ensures Inv(Start(online, revision))
  {
  }

  // ---------- steps that leave the loads alone ----------

  /** Only the file shown, the presentation and the view change; an open editor keeps a file. */
  ghost predicate MovesView(s: State, t: State) {
    t.online == s.online && t.store == s.store && t.copiedVersion == s.copiedVersion && t.req == s.req &&
    t.doc == s.doc.(file := t.doc.file, presentation := t.doc.presentation) &&
    (t.view.editing ==> s.view.editing) && (t.view.editing && s.doc.CurrentFile().Some? ==> t.doc.CurrentFile().Some?)
  }

  lemma LoseFocusMoves(s: State)
    ensures MovesView(s, LoseFocus(s).state) && !LoseFocus(s).cmd.LoadRevision? && !LoseFocus(s).cmd.Copy?
  {
  }

  lemma AtFileMoves(s: State, index: int)
    requires 0 <= index < |s.doc.files|
    ensures MovesView(s, AtFile(s, index)) && MovesView(s, ClearFocus(AtFile(s, index)))
    ensures forall at :: MovesView(s, PlaceCursor(AtFile(s, index), at))
    ensures MovesView(s, InFileView(AtFile(s, index)))
  {
  }

  lemma MovesTwice(s: State, t: State, u: State)
    requires MovesView(s, t) && MovesView(t, u)
    ensures MovesView(s, u)
  {
  }

  lemma JumpInFileMoves(s: State)
    ensures MovesView(s, JumpInFile(s).state) && !JumpInFile(s).cmd.LoadRevision? && !JumpInFile(s).cmd.Copy?
  {
    LoseFocusMoves(s);
    var f := FocusedFile(s);
    if f.Some? { AtFileMoves(s, f.value); }
  }

  lemma FallBackMoves(s: State)
    ensures MovesView(s, FallBack(s).state) && !FallBack(s).cmd.LoadRevision? && !FallBack(s).cmd.Copy?
  {
    JumpInFileMoves(s);
  }

  lemma JumpMoves(s: State)
    ensures MovesView(s, JumpToFocused(s).state) && !JumpToFocused(s).cmd.LoadRevision? && !JumpToFocused(s).cmd.Copy?
  {
    JumpInFileMoves(s);
    LoseFocusMoves(s);
    var f := FocusedFile(s);
    if f.Some? {
      AtFileMoves(s, f.value);
      var t := InFileView(AtFile(s, f.value));
      FallBackMoves(t);
      MovesTwice(s, t, FallBack(t).state);
    }
  }

  /** Ids are above zero, the value that stands for no focus, were given out before, and grow. */
  ghost predicate IdsGrow(a: Store) {
    a.nextId >= 0 && (forall i :: 0 <= i < |a.items| ==> 0 < a.items[i].id <= a.nextId) &&
    forall i, j :: 0 <= i < j < |a.items| ==> a.items[i].id < a.items[j].id
  }

  ghost predicate StoreGrows(a: Store, b: Store) {
    b.version >= a.version && (b.version == a.version ==> b.items == a.items) && (IdsGrow(a) ==> IdsGrow(b))
  }

  lemma StoreStepsGrow(a: Store, note: Annotation, id: int, comment: string)
    ensures StoreGrows(a, a.Add(note)) && StoreGrows(a, a.UpdateComment(id, comment)) && StoreGrows(a, a.Remove(id)) &&
            StoreGrows(a, a.Clear())
  {
  }

  /** No load is asked for or answered, and the files stay. */
  ghost predicate QuietState(s: State, t: State) {
    t.online == s.online && t.req.load == s.req.load && t.req.next >= s.req.next &&
    t.copiedVersion == s.copiedVersion &&
    t.doc.revision == s.doc.revision && t.doc.loadingRevision == s.doc.loadingRevision &&
    t.doc.loading == s.doc.loading &&
    t.doc.files == s.doc.files && StoreGrows(s.store, t.store) && (EditorHasFile(s) ==> EditorHasFile(t))
  }

  predicate QuietCmd(c: Cmd) { !c.LoadRevision? && !c.Copy? }

  ghost predicate Quiet(s: State, o: Outcome) { QuietState(s, o.state) && QuietCmd(o.cmd) }

  lemma MovesIsQuiet(s: State, t: State)
    requires MovesView(s, t)
    ensures QuietState(s, t)
  {
  }

  lemma QuietTwice(s: State, t: State, u: State)
    requires QuietState(s, t) && QuietState(t, u)
    ensures QuietState(s, u)
  {
  }

  /** A new revision load: a fresh id, outstanding for the revision now waited for; never while editing. */
  ghost predicate Issues(s: State, o: Outcome) {
    var t := o.state;
    !s.view.editing && o.cmd.LoadRevision? && o.cmd.id == s.req.next + 1 == t.req.load == t.req.next &&
    o.cmd.revision != "" && t == s.(req := t.req, doc := s.doc.(loadingRevision := o.cmd.revision))
  }

  lemma SelectOutcome(s: State, revision: string)
    ensures Quiet(s, SelectRevision(s, revision)) || Issues(s, SelectRevision(s, revision))
  {
  }

  /** The handler either leaves the loads alone or, after doing so, issues one. */
  ghost predicate Settles(s: State, o: Outcome) {
    Quiet(s, o) || exists t :: QuietState(s, t) && t.req.next == s.req.next && Issues(t, o)
  }

  lemma SelectAfter(s: State, t: State, revision: string)
    requires QuietState(s, t) && t.req.next == s.req.next
    ensures Settles(s, SelectRevision(t, revision))
  {
    SelectOutcome(t, revision);
    if Quiet(t, SelectRevision(t, revision)) { QuietTwice(s, t, SelectRevision(t, revision).state); }
  }

  lemma JumpAfter(s: State, t: State)
    requires QuietState(s, t)
    ensures Quiet(s, JumpToFocused(t))
  {
    JumpMoves(t);
    MovesIsQuiet(t, JumpToFocused(t).state);
    QuietTwice(s, t, JumpToFocused(t).state);
  }

  lemma TargetsOutcome(s: State, m: TargetsMsg)
    ensures Settles(s, OnTargetsLoaded(s, m))
  {
    var t := s.(req := s.req.(targets := 0));
    var targets := NotRoot(m.targets, |m.targets|);
    assert QuietState(s, s) && QuietState(s, t) && QuietState(s, ClearFocus(t));
    if |targets| == 1 { SelectAfter(s, ClearFocus(t), targets[0]); }
  }

  /** A complete text arrives for file `index`; what follows leaves the files alone. */
  lemma FileLoadedOutcome(s: State, m: FileMsg, index: int)
    requires index == FileIndex(s.doc.files, m.path, 0)
    ensures m.changeId != s.doc.revision || index < 0 ==> OnFileLoaded(s, m) == Outcome(s, Nothing)
    ensures m.changeId == s.doc.revision && index >= 0 ==> Quiet(WithContent(s, index, m), OnFileLoaded(s, m))
  {
    if m.changeId == s.doc.revision && index >= 0 {
      var t := WithContent(s, index, m);
      assert QuietState(t, t);
      JumpAfter(t, t);
    }
  }

  lemma ShowFileOutcome(s: State, index: nat)
    requires index < |s.doc.files|
    ensures Quiet(s, ShowFile(s, index))
  {
  }

  lemma CommentPickedOutcome(s: State, id: Option<int>)
    ensures Settles(s, OnCommentPicked(s, id))
  {
    if id.Some? && s.store.Find(id.value).Some? {
      var a := s.store.Find(id.value).value;
      var t := s.(doc := s.doc.(presentation := DiffView),
                  view := s.view.(sourceVersion := s.view.sourceVersion + 1, focused := a.id));
      assert QuietState(s, s) && QuietState(s, t);
      JumpAfter(s, t);
      SelectAfter(s, t, a.changeId);
    }
  }

  lemma RevisionPickedOutcome(s: State, revision: string)
    ensures Settles(s, OnRevisionPicked(s, revision))
  {
    assert QuietState(s, s) && QuietState(s, ClearFocus(s));
    SelectAfter(s, ClearFocus(s), revision);
  }

  lemma {:induction false} CoveringNeedsFile(s: State, all: seq<Annotation>, n: nat)
    requires n <= |all|
    ensures CoveringFrom(s, all, n) != [] ==> s.doc.CurrentFile().Some?
  {
    if n > 0 { CoveringNeedsFile(s, all, n - 1); }
  }

  lemma NotesNeedFile(s: State)
    ensures AnnotationsAtCursor(s) != [] ==> s.doc.CurrentFile().Some?
  {
    var all := s.store.ForFile(s.doc.revision, s.doc.CurrentPath(), |s.store.items|);
    CoveringNeedsFile(s, all, |all|);
  }

  lemma EditorOpens(s: State, draft: string, focused: int)
    requires s.doc.CurrentFile().Some?
    ensures QuietState(s, StartEditor(s, draft, focused)) &&
            QuietState(s, StartEditor(DropStaleFocus(s), draft, focused))
  {
  }

  /** The editor is only opened on a line of the current file. */
  lemma AddOutcome(s: State)
    ensures Quiet(s, OnAdd(s))
  {
    NotesNeedFile(s);
    assert QuietState(s, DropStaleFocus(s));
    if s.doc.CurrentFile().Some? {
      var at := AnnotationsAtCursor(s);
      EditorOpens(s, "", 0);
      if |at| == 1 { EditorOpens(s, at[0].comment, at[0].id); }
    }
  }

  lemma DeleteOutcome(s: State)
    ensures Quiet(s, OnDelete(s))
  {
    var at := AnnotationsAtCursor(s);
    if |at| == 1 { StoreStepsGrow(s.store, at[0], at[0].id, ""); }
  }

  lemma SavedGrows(s: State)
    requires s.doc.CurrentFile().Some?
    ensures StoreGrows(s.store, Saved(s))
  {
    var comment := Trim(s.view.draft);
    StoreStepsGrow(s.store, NewAnnotation(s, comment), s.view.focused, comment);
  }

  lemma SaveOutcome(s: State)
    requires s.view.editing ==> s.doc.CurrentFile().Some?
    ensures Quiet(s, OnSave(s))
  {
    if s.view.editing { SavedGrows(s); }
  }

  predicate ViewIntent(i: Intent) {
    i.Cancel? || i.EditorCancel? || i.Move? || i.OpenFilePicker? || i.OpenCommentPicker? || i.ScrollHorizontal? ||
    i.ToggleWrap?
  }

  lemma ViewIntentOutcome(s: State, i: Intent)
    requires EditorHasFile(s) && ViewIntent(i)
    ensures Quiet(s, OnIntent(s, i))
  {
  }

  lemma NavigateOutcome(s: State, i: Intent)
    requires EditorHasFile(s) && (i.FileNavigate? || i.RevisionNavigate? || i.TogglePresentation? || i.ClearNotes?)
    ensures Quiet(s, OnIntent(s, i))
  {
    if i.FileNavigate? && |s.doc.files| > 0 { ShowFileOutcome(s, (s.doc.file + i.delta) % |s.doc.files|); }
  }

  lemma IntentOutcome(s: State, i: Intent)
    requires EditorHasFile(s) && !i.CopyNotes?
    ensures Quiet(s, OnIntent(s, i))
  {
    if s.confirming {
      assert QuietState(s, s);
    } else if ViewIntent(i) {
      ViewIntentOutcome(s, i);
    } else if i.EditorSave? {
      SaveOutcome(s);
    } else if i.AddNote? {
      AddOutcome(s);
    } else if i.DeleteNote? {
      DeleteOutcome(s);
    } else {
      NavigateOutcome(s, i);
    }
  }

  lemma OtherOutcome(s: State, e: Event)
    requires EditorHasFile(s) && (e.LineClicked? || e.Wheel? || e.Typed? || e.CloseRequested? || e.ConfirmationClosed?)
    ensures Quiet(s, Apply(s, e))
  {
  }

  // ---------- the steps keep the invariant ----------

  lemma QuietKeeps(w: World, e: Event)
    requires Inv(w) && Quiet(w.state, Apply(w.state, e)) && !e.FileLoaded?
    requires e.RevisionLoaded? ==> !Accepts(w.state, e.revision)
    ensures Inv(Next(w, e))
  {
    QuietWorld(w, Apply(w.state, e), if e.RevisionLoaded? then w.delivered + [e.revision] else w.delivered);
  }

  lemma QuietWorld(w: World, o: Outcome, delivered: seq<RevisionMsg>)
    requires Inv(w) && Quiet(w.state, o) && w.delivered <= delivered
    ensures Inv(w.(state := o.state, delivered := delivered))
  {
    assert forall m :: m in w.delivered ==> m in delivered;
  }

  lemma MoreContents(w: World, m: FileMsg)
    requires Inv(w)
    ensures Inv(w.(contents := w.contents + [m]))
  {
    var more := w.contents + [m];
    assert forall n :: n in w.contents ==> n in more;
  }

  lemma PutContentKeeps(files: seq<FileItem>, loaded: seq<FileItem>, revision: string, contents: seq<FileMsg>,
                        m: FileMsg, index: nat, g: FileItem)
    requires FilesFrom(files, loaded, revision, contents) && m in contents && m.changeId == revision
    requires index < |files| && files[index].path == m.path
    requires g ==
               files[index].(contentErr := m.err, contentLoaded := m.err.None?,
                             content := if m.err.None? then m.content else files[index].content)
    ensures FilesFrom(files[index := g], loaded, revision, contents)
  {
  }

  lemma ContentKeeps(w: World, m: FileMsg, index: nat)
    requires Inv(w) && m in w.contents && m.changeId == w.state.doc.revision && index < |w.state.doc.files| &&
             w.state.doc.files[index].path == m.path
    ensures Inv(w.(state := WithContent(w.state, index, m)))
  {
    var files := w.state.doc.files;
    var g := WithContent(w.state, index, m).doc.files[index];
    PutContentKeeps(files, w.origin.value.files, w.state.doc.revision, w.contents, m, index, g);
  }

  lemma KnownFileKeeps(v: World, m: FileMsg, index: nat, o: Outcome)
    requires Inv(v) && m in v.contents && m.changeId == v.state.doc.revision && index < |v.state.doc.files| &&
             v.state.doc.files[index].path == m.path
    requires Quiet(WithContent(v.state, index, m), o)
    ensures Inv(v.(state := o.state))
  {
    ContentKeeps(v, m, index);
    QuietWorld(v.(state := WithContent(v.state, index, m)), o, v.delivered);
  }

  lemma FileLoadedKeeps(w: World, m: FileMsg)
    requires Inv(w)
    ensures Inv(Next(w, FileLoaded(m)))
  {
    var v := w.(contents := w.contents + [m]);
    MoreContents(w, m);
    var o := OnFileLoaded(v.state, m);
    DeliveredFileKeeps(v, m, o);
    assert Next(w, FileLoaded(m)) == v.(state := o.state);
  }

  lemma DeliveredFileKeeps(v: World, m: FileMsg, o: Outcome)
    requires Inv(v) && m in v.contents && o == OnFileLoaded(v.state, m)
    ensures Inv(v.(state := o.state)) && QuietCmd(o.cmd)
  {
    var index := FileIndex(v.state.doc.files, m.path, 0);
    FileLoadedOutcome(v.state, m, index);
    if m.changeId == v.state.doc.revision && index >= 0 {
      FileIndexFinds(v.state.doc.files, m.path, 0);
      KnownFileKeeps(v, m, index, o);
    }
  }

  lemma {:induction false} FileIndexFinds(files: seq<FileItem>, path: string, i: nat)
    requires i <= |files|
    ensures FileIndex(files, path, i) >= 0 ==> files[FileIndex(files, path, i)].path == path
    decreases |files| - i
  {
    if i < |files| { FileIndexFinds(files, path, i + 1); }
  }

  lemma IssueKeeps(w: World, t: State, o: Outcome)
    requires Inv(w) && QuietState(w.state, t) && t.req.next == w.state.req.next && Issues(t, o)
    ensures Inv(w.(state := o.state, issued := Issue(w.issued, o.cmd)))
  {
    QuietWorld(w, Outcome(t, Nothing), w.delivered);
  }

  lemma SettlesKeeps(w: World, e: Event)
    requires Inv(w) && Settles(w.state, Apply(w.state, e)) && !e.RevisionLoaded? && !e.FileLoaded?
    ensures Inv(Next(w, e))
  {
    var o := Apply(w.state, e);
    if Quiet(w.state, o) {
      QuietKeeps(w, e);
    } else {
      var t :| QuietState(w.state, t) && t.req.next == w.state.req.next && Issues(t, o);
      IssueKeeps(w, t, o);
    }
  }

  lemma CopyKeeps(w: World)
    requires Inv(w)
    ensures Inv(Next(w, User(CopyNotes)))
  {
  }

  /** An accepted load that shows nothing new: refused while editing, or failed while another revision is shown. */
  lemma DoneKeeps(w: World, s: State, m: RevisionMsg)
    requires Inv(w) && Accepts(w.state, m) && (s == LoadDone(w.state) || s == ClearFocus(LoadDone(w.state)))
    ensures Inv(w.(state := s, delivered := w.delivered + [m], taken := w.taken + [m.requestId]))
  {
  }

  lemma ErrorKeeps(w: World, m: RevisionMsg)
    requires Inv(w) && Accepts(w.state, m) && m.err.Some? && w.state.doc.loadingRevision == ""
    ensures Inv(w.(state := ShowError(LoadDone(w.state), m), delivered := w.delivered + [m],
                   taken := w.taken + [m.requestId]))
  {
  }

  lemma ShowKeeps(w: World, m: RevisionMsg)
    requires Inv(w) && Replaces(w.state, m)
    ensures Inv(w.(state := ShowRevision(LoadDone(w.state), m), origin := Some(m), delivered := w.delivered + [m],
                   taken := w.taken + [m.requestId]))
  {
  }

  lemma AcceptKeeps(w: World, m: RevisionMsg)
    requires Inv(w) && Accepts(w.state, m)
    ensures Inv(Next(w, RevisionLoaded(m)))
  {
    var s := w.state;
    if s.doc.loadingRevision != "" && s.view.editing {
      DoneKeeps(w, LoadDone(s), m);
    } else if s.doc.loadingRevision != "" && m.err.Some? {
      DoneKeeps(w, ClearFocus(LoadDone(s)), m);
    } else if m.err.Some? {
      ErrorKeeps(w, m);
    } else {
      ShowKeeps(w, m);
      AfterLoadKeeps(w.(state := ShowRevision(LoadDone(s), m), origin := Some(m), delivered := w.delivered + [m],
                        taken := w.taken + [m.requestId]));
    }
  }

  lemma AfterLoadKeeps(w: World)
    requires Inv(w)
    ensures Inv(w.(state := AfterLoad(w.state).state)) && QuietCmd(AfterLoad(w.state).cmd)
  {
    var t := w.state;
    assert QuietState(t, t);
    JumpAfter(t, t);
    QuietWorld(w, AfterLoad(t), w.delivered);
  }

  /** Every step keeps the invariant, whatever arrives. */
  lemma NextKeeps(w: World, e: Event)
    requires Inv(w) && Possible(w, e)
    ensures Inv(Next(w, e))
  {
    var s := w.state;
    match e
    case User(i) => if i.CopyNotes? { CopyKeeps(w); } else { IntentOutcome(s, i); QuietKeeps(w, e); }
    case RevisionLoaded(m) =>
      if Accepts(s, m) { AcceptKeeps(w, m); } else { assert QuietState(s, s); QuietKeeps(w, e); }
    case TargetsLoaded(m) => TargetsOutcome(s, m); SettlesKeeps(w, e);
    case FileLoaded(m) => FileLoadedKeeps(w, m);
    case FilePicked(path) =>
      var index := FileIndex(s.doc.files, path, 0);
      if index >= 0 { ShowFileOutcome(s, index); } else { assert QuietState(s, s); }
      QuietKeeps(w, e);
    case CommentPicked(id) => CommentPickedOutcome(s, id); SettlesKeeps(w, e);
    case RevisionPicked(change) => RevisionPickedOutcome(s, change); SettlesKeeps(w, e);
    case _ => OtherOutcome(s, e); QuietKeeps(w, e);
  }

  // ---------- whole runs ----------

  /** One step of a run: the view can take the event, and the event is one that can happen. */
  ghost predicate Steps(w: World, e: Event, w': World) {
    EditorHasFile(w.state) && Possible(w, e) && w' == Next(w, e)
  }

  ghost function OneStep(): (World, Event, World) -> bool { (a: World, e: Event, b: World) => Steps(a, e, b) }

  /** The worlds passed through from a fresh view, whatever the order, repetition or loss of responses. */
  ghost predicate IsRun(ws: seq<World>, es: seq<Event>) {
    IsTrace(OneStep(), ws, es) && exists online, revision :: ws[0] == Start(online, revision)
  }

  ghost predicate Reachable(w: World) {
    exists ws, es :: IsRun(ws, es) && ws[|es|] == w
  }

  lemma StepKeeps(w: World, e: Event, w': World)
    requires Inv(w) && Steps(w, e, w')
    ensures Inv(w')
  {
    NextKeeps(w, e);
  }

  lemma {:induction false} RunIsGood(ws: seq<World>, es: seq<Event>, i: nat)
    requires IsRun(ws, es) && i <= |es|
    ensures Inv(ws[i])
  {
    if i == 0 {
      var online, revision :| ws[0] == Start(online, revision);
      StartIsGood(online, revision);
    } else {
      RunIsGood(ws, es, i - 1);
      assert OneStep()(ws[i - 1], es[i - 1], ws[i]);
      StepKeeps(ws[i - 1], es[i - 1], ws[i]);
    }
  }

  lemma ReachableIsGood(w: World)
    requires Reachable(w)
    ensures Inv(w)
  {
    var ws, es :| IsRun(ws, es) && ws[|es|] == w;
    RunIsGood(ws, es, |es|);
  }

  /** No run gets stuck: from a reachable world every possible event leads to a reachable world. */
  lemma RunsGoOn(w: World, e: Event)
    requires Reachable(w) && Possible(w, e)
    ensures EditorHasFile(w.state) && Reachable(Next(w, e))
  {
    ReachableIsGood(w);
    var ws, es :| IsRun(ws, es) && ws[|es|] == w;
    TraceSnoc(OneStep(), ws, es, e, Next(w, e));
    assert IsRun(ws + [Next(w, e)], es + [e]);
  }

  /**
   The files are none or those of a successful load of the current revision, with complete texts from that load or from
   responses for this revision and their own path; no load is taken twice.
   */
  lemma FilesComeFromCurrentRevision(w: World)
    requires Reachable(w)
    ensures w.state.doc.files == [] ||
            exists m :: m in w.delivered && m.err.None? && m.changeId == w.state.doc.revision &&
                        FilesFrom(w.state.doc.files, m.files, w.state.doc.revision, w.contents)
    ensures forall i, j :: 0 <= i < j < |w.taken| ==> w.taken[i] != w.taken[j]
  {
    ReachableIsGood(w);
  }

  /** A response with the outstanding id is always taken; any other changes nothing. */
  lemma OutstandingIsAccepted(w: World, m: RevisionMsg)
    requires Reachable(w) && Possible(w, RevisionLoaded(m))
    ensures Accepts(w.state, m) <==> m.requestId == w.state.req.load
    ensures m.requestId != w.state.req.load ==> OnRevisionLoaded(w.state, m) == Outcome(w.state, Nothing)
  {
    ReachableIsGood(w);
  }

  // ---------- load responses while the editor is open ----------

  predicate IsResponse(e: Event) { e.RevisionLoaded? || e.TargetsLoaded? || e.FileLoaded? }

  /** The parents or children asked for have come, and there is one to turn to. */
  predicate TurnsTo(s: State, m: TargetsMsg) {
    m.requestId != 0 && m.requestId == s.req.targets && m.changeId == s.doc.revision && m.err.None? &&
    |NotRoot(m.targets, |m.targets|)| == 1
  }

  /** The complete text of the focused comment's file has come while complete files are shown. */
  predicate FindsText(s: State, m: FileMsg) {
    m.changeId == s.doc.revision && FileIndex(s.doc.files, m.path, 0) >= 0 && s.doc.presentation.FileView? &&
    s.view.focused != 0 && s.store.Find(s.view.focused).Some? && s.store.Find(s.view.focused).value.file == m.path
  }

  /** Where the focused comment stands in the text just delivered; a comment on another revision stands nowhere. */
  function PlaceIn(s: State, m: FileMsg): Option<nat>
    requires FindsText(s, m)
  {
    var a, index := s.store.Find(s.view.focused).value, FileIndex(s.doc.files, m.path, 0);
    if a.changeId != s.doc.revision then None
    else Source(Some(WithContent(s, index, m).doc.files[index]), FileView).AnchorOf(a)
  }

  predicate TakesFocus(s: State, e: Event) {
    (e.TargetsLoaded? && TurnsTo(s, e.targets)) ||
    (e.FileLoaded? && FindsText(s, e.content) && PlaceIn(s, e.content).None?)
  }

  predicate MovesCursor(s: State, e: Event) { e.FileLoaded? && FindsText(s, e.content) && PlaceIn(s, e.content).Some? }

  /** The response shows the focused comment's file. */
  predicate ShowsFile(s: State, e: Event) {
    e.FileLoaded? && FindsText(s, e.content) && s.store.Find(s.view.focused).value.changeId == s.doc.revision
  }

  /**
   The editor stays open on the same text, the comments and the revision stay, and of the files only complete texts
   change.
   */
  ghost predicate StaysOpen(s: State, t: State) {
    t.view.editing && t.view.draft == s.view.draft && t.store == s.store && t.doc.revision == s.doc.revision &&
    t.doc.presentation == s.doc.presentation && |t.doc.files| == |s.doc.files| &&
    forall i ::
      0 <= i < |s.doc.files| ==>
        t.doc.files[i].path == s.doc.files[i].path && t.doc.files[i].patch == s.doc.files[i].patch
  }

  lemma {:induction false} SameIndex(files: seq<FileItem>, more: seq<FileItem>, path: string, i: nat)
    requires i <= |files| == |more| && forall k :: 0 <= k < |files| ==> more[k].path == files[k].path
    ensures FileIndex(more, path, i) == FileIndex(files, path, i)
    decreases |files| - i
  {
    if i < |files| { SameIndex(files, more, path, i + 1); }
  }

  lemma JumpOrLose(s: State, a: Annotation, index: nat, at: Option<nat>)
    requires s.doc.presentation.FileView? && s.store.Find(s.view.focused) == Some(a) &&
             index == FileIndex(s.doc.files, a.file, 0)
    requires at == AnchorInView(AtFile(s, index), a)
    ensures a.changeId != s.doc.revision ==> JumpToFocused(s).state == ClearFocus(s)
    ensures a.changeId == s.doc.revision ==>
              JumpToFocused(s).state ==
                if at.Some? then PlaceCursor(AtFile(s, index), at.value) else ClearFocus(AtFile(s, index))
  {
  }

  lemma PlaceIsAnchor(s: State, m: FileMsg, index: nat, a: Annotation)
    requires FindsText(s, m) && index == FileIndex(s.doc.files, m.path, 0) && s.store.Find(s.view.focused) == Some(a)
    requires a.changeId == s.doc.revision
    ensures PlaceIn(s, m) == AnchorInView(AtFile(WithContent(s, index, m), index), a)
  {
    FileIndexFinds(s.doc.files, m.path, 0);
  }

  /** The jump to the focused comment after its file's text has come. */
  lemma JumpsToPlace(s: State, m: FileMsg, index: nat, t: State, u: State)
    requires FindsText(s, m) && index == FileIndex(s.doc.files, m.path, 0) && t == WithContent(s, index, m) &&
             u == JumpToFocused(t).state
    ensures PlaceIn(s, m).None? ==> u.view == t.view.(focused := 0, sourceVersion := u.view.sourceVersion)
    ensures PlaceIn(s, m).Some? ==>
              u.view ==
                t.view.(cursor := PlaceIn(s, m).value, selectionAnchor := -1, scrollX := 0,
                        sourceVersion := u.view.sourceVersion)
    ensures u.store == s.store && u.doc == t.doc.(file := u.doc.file)
    ensures u.doc.file == if s.store.Find(s.view.focused).value.changeId == s.doc.revision then index else s.doc.file
  {
    var a := s.store.Find(s.view.focused).value;
    FileIndexFinds(s.doc.files, m.path, 0);
    SameIndex(s.doc.files, t.doc.files, m.path, 0);
    JumpOrLose(t, a, index, AnchorInView(AtFile(t, index), a));
    if a.changeId == s.doc.revision { PlaceIsAnchor(s, m, index, a); }
  }

  lemma FileUnderEditor(s: State, m: FileMsg, t: State)
    requires s.view.editing && t == OnFileLoaded(s, m).state
    ensures StaysOpen(s, t) && t.view.focused == (if TakesFocus(s, FileLoaded(m)) then 0 else s.view.focused)
    ensures MovesCursor(s, FileLoaded(m)) ==> t.view.cursor == PlaceIn(s, m).value && t.view.selectionAnchor == -1
    ensures !MovesCursor(s, FileLoaded(m)) ==>
              t.view.cursor == s.view.cursor && t.view.selectionAnchor == s.view.selectionAnchor
    ensures t.doc.file == if ShowsFile(s, FileLoaded(m)) then FileIndex(s.doc.files, m.path, 0) else s.doc.file
  {
    var index := FileIndex(s.doc.files, m.path, 0);
    if FindsText(s, m) { JumpsToPlace(s, m, index, WithContent(s, index, m), t); }
  }

  lemma RevisionUnderEditor(s: State, m: RevisionMsg, t: State)
    requires s.view.editing && EditorHasFile(s) && t == OnRevisionLoaded(s, m).state
    ensures t.view == s.view && t.store == s.store
    ensures t.doc == s.doc.(loading := t.doc.loading, loadingRevision := t.doc.loadingRevision)
  {
  }

  lemma TargetsUnderEditor(s: State, m: TargetsMsg, t: State)
    requires s.view.editing && t == OnTargetsLoaded(s, m).state
    ensures t == s.(req := t.req, view := s.view.(focused := if TurnsTo(s, m) then 0 else s.view.focused))
  {
  }

  /**
   A load response leaves an open editor open, with its text, its revision and the same files. The focus on the comment
   being edited is lost exactly to a single target or to a text without the comment's line; the cursor follows the
   focused comment into a text that has its line, and otherwise stays.
   */
  lemma EditorUnderResponses(s: State, e: Event, t: State)
    requires s.view.editing && IsResponse(e) && EditorHasFile(s) && t == Apply(s, e).state
    ensures t.doc.CurrentFile().Some? && StaysOpen(s, t)
    ensures t.view.focused == if TakesFocus(s, e) then 0 else s.view.focused
    ensures MovesCursor(s, e) ==> t.view.cursor == PlaceIn(s, e.content).value && t.view.selectionAnchor == -1
    ensures !MovesCursor(s, e) ==> t.view.cursor == s.view.cursor && t.view.selectionAnchor == s.view.selectionAnchor
    ensures t.doc.file == if ShowsFile(s, e) then FileIndex(s.doc.files, e.content.path, 0) else s.doc.file
  {
    match e
    case RevisionLoaded(m) => RevisionUnderEditor(s, m, t);
    case TargetsLoaded(m) => TargetsUnderEditor(s, m, t);
    case FileLoaded(m) => FileUnderEditor(s, m, t);
  }

  lemma SaveChanges(s: State, comment: string)
    requires s.view.editing && s.doc.CurrentFile().Some? && s.view.focused != 0 && comment == Trim(s.view.draft) &&
             comment != ""
    ensures OnSave(s).state.store == s.store.UpdateComment(s.view.focused, comment)
    ensures |s.store.UpdateComment(s.view.focused, comment).items| == |s.store.items|
  {
  }

  lemma SaveAdds(s: State, comment: string)
    requires s.view.editing && s.doc.CurrentFile().Some? && s.view.focused == 0 && comment == Trim(s.view.draft) &&
             comment != ""
    ensures OnSave(s).state.store.items == s.store.items + [NewAnnotation(s, comment).(id := s.store.nextId + 1)]
  {
  }

  /**
   Saving a comment that was being edited changes it; after a response that takes its focus it adds another one instead.
   */
  lemma LostFocusTurnsChangeIntoAddition(s: State, e: Event, t: State, comment: string)
    requires s.view.editing && IsResponse(e) && EditorHasFile(s) && t == Apply(s, e).state && TakesFocus(s, e)
    requires s.view.focused != 0 && comment == Trim(s.view.draft) && comment != ""
    ensures OnSave(s).state.store == s.store.UpdateComment(s.view.focused, comment)
    ensures |OnSave(s).state.store.items| == |s.store.items|
    ensures t.view.editing && t.doc.CurrentFile().Some?
    ensures OnSave(t).state.store.items == s.store.items + [NewAnnotation(t, comment).(id := s.store.nextId + 1)]
  {
    EditorUnderResponses(s, e, t);
    SaveChanges(s, comment);
    SaveAdds(t, comment);
  }

  lemma {:induction false} ForFileIsStored(st: Store, changeId: string, file: string, n: nat)
    requires n <= |st.items|
    ensures forall a :: a in st.ForFile(changeId, file, n) ==> a in st.items
  {
    if n > 0 { ForFileIsStored(st, changeId, file, n - 1); }
  }

  lemma {:induction false} CoveringIsOf(s: State, all: seq<Annotation>, n: nat)
    requires n <= |all|
    ensures forall a :: a in CoveringFrom(s, all, n) ==> a in all
  {
    if n > 0 { CoveringIsOf(s, all, n - 1); }
  }

  lemma NotesAreStored(s: State)
    ensures forall a :: a in AnnotationsAtCursor(s) ==> a in s.store.items
  {
    var all := s.store.ForFile(s.doc.revision, s.doc.CurrentPath(), |s.store.items|);
    ForFileIsStored(s.store, s.doc.revision, s.doc.CurrentPath(), |s.store.items|);
    CoveringIsOf(s, all, |all|);
  }

  lemma {:induction false} CoveringStays(s: State, t: State, all: seq<Annotation>, n: nat)
    requires t.doc == s.doc && t.view == s.view && n <= |all|
    ensures CoveringFrom(t, all, n) == CoveringFrom(s, all, n)
  {
    if n > 0 { CoveringStays(s, t, all, n - 1); }
  }

  lemma SameNotes(s: State, t: State)
    requires t.doc == s.doc && t.view == s.view && t.store == s.store
    ensures AnnotationsAtCursor(t) == AnnotationsAtCursor(s)
  {
    var all := s.store.ForFile(s.doc.revision, s.doc.CurrentPath(), |s.store.items|);
    CoveringStays(s, t, all, |all|);
  }

  lemma AddOpens(s: State, a: Annotation)
    requires AnnotationsAtCursor(s) == [a]
    ensures OnAdd(s).state == StartEditor(s, a.comment, a.id)
  {
  }

  lemma AsksForTargets(s: State, child: bool, t: State)
    requires s.online && s.doc.revision != "" && s.doc.loadingRevision == "" && !s.view.editing
    requires t == OnNavigateRevision(s, child).state
    ensures t == s.(req := s.req.(next := s.req.next + 1, targets := s.req.next + 1))
  {
  }

  lemma AskThenAdd(s: State, child: bool, m: TargetsMsg, t: State, u: State, a: Annotation)
    requires s.online && s.doc.revision != "" && s.doc.loadingRevision == "" && !s.view.editing &&
             AnnotationsAtCursor(s) == [a]
    requires t == OnNavigateRevision(s, child).state && u == OnAdd(t).state
    requires m.requestId == s.req.next + 1 && m.changeId == s.doc.revision && m.err.None? &&
             |NotRoot(m.targets, |m.targets|)| == 1
    ensures TurnsTo(u, m) && u.store == s.store && u.view.editing && u.view.draft == a.comment && u.view.focused == a.id
  {
    AsksForTargets(s, child, t);
    SameNotes(s, t);
    AddOpens(t, a);
  }

  lemma NotesHaveIds(s: State, a: Annotation)
    requires IdsGrow(s.store) && AnnotationsAtCursor(s) == [a]
    ensures a in s.store.items && a.id != 0
  {
    NotesAreStored(s);
    assert a in AnnotationsAtCursor(s);
  }

  lemma TwoSteps(w: World, e: Event, v: World, f: Event, u: World)
    requires Reachable(w) && Steps(w, e, v) && Steps(v, f, u)
    ensures Reachable(u) && IdsGrow(w.state.store) && v.state == Apply(w.state, e).state &&
            u.state == Apply(v.state, f).state
  {
    ReachableIsGood(w);
    RunsGoOn(w, e);
    RunsGoOn(v, f);
  }

  lemma NavigateAndAdd(s: State, child: bool)
    requires EditorHasFile(s) && !s.confirming
    ensures Apply(s, User(RevisionNavigate(child))) == OnNavigateRevision(s, child) &&
            Apply(s, User(AddNote)) == OnAdd(s)
    ensures OnNavigateRevision(s, child).state.confirming == s.confirming
  {
  }

  /** That happens: ask for the parent or child, open the editor on a commented line, and let the answer arrive. */
  lemma TargetMayMeetEditor(w: World, child: bool, m: TargetsMsg, v: World, u: World, a: Annotation)
    requires Reachable(w) && Steps(w, User(RevisionNavigate(child)), v) && Steps(v, User(AddNote), u)
    requires w.state.online && w.state.doc.revision != "" && w.state.doc.loadingRevision == ""
    requires !w.state.view.editing && !w.state.confirming && AnnotationsAtCursor(w.state) == [a]
    requires m.requestId == w.state.req.next + 1 && m.changeId == w.state.doc.revision && m.err.None? &&
             |NotRoot(m.targets, |m.targets|)| == 1
    ensures Reachable(u) && TurnsTo(u.state, m) && u.state.store == w.state.store
    ensures u.state.view.editing && u.state.view.draft == a.comment && u.state.view.focused == a.id != 0 &&
            a in w.state.store.items
  {
    TwoSteps(w, User(RevisionNavigate(child)), v, User(AddNote), u);
    NotesHaveIds(w.state, a);
    NavigateAndAdd(w.state, child);
    NavigateAndAdd(v.state, child);
    AskThenAdd(w.state, child, m, v.state, u.state, a);
  }

  /**
   Closing without a question is offered only when there are no comments or they are those last handed to the copy
   command.
   */
  lemma CloseLosesNothing(w: World)
    requires Reachable(w) && MayClose(w.state)
    ensures w.state.store.items == [] || w.state.store.items == w.copied
  {
    ReachableIsGood(w);
  }
}
