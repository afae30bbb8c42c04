/**
 The annotation view as it runs: objects whose fields each message updates
 (internal/ui/annotation/annotation.go, renderer.go, model.go).
 */
module ReviewView {
  import opened Text
  import opened PatchLines
  import opened ReviewSource
  import opened ReviewState
  import opened ReviewProtocol
  import opened ReviewCache

  class NoteStore {
    var items: seq<Annotation>
    var nextId: int
    var version: nat

    function Value(): Store reads this { Store(items, nextId, version) }

    constructor ()
      ensures Value() == Store([], 0, 0)
    {
      items, nextId, version := [], 0, 0;
    }

    method Index(id: int) returns (index: int)
      ensures index == Value().Index(id) && -1 <= index < |items|
      ensures index >= 0 ==> items[index].id == id
    {
      for i := 0 to |items|
        invariant Value().IndexFrom(id, 0) == Value().IndexFrom(id, i)
      {
        if items[i].id == id { return i; }
      }
      return -1;
    }

    method Find(id: int) returns (a: Option<Annotation>)
      ensures a == Value().Find(id)
    {
      var index := Index(id);
      if index < 0 { return None; }
      return Some(items[index]);
    }

    method Add(a: Annotation)
      modifies this
      ensures Value() == old(Value()).Add(a)
    {
      nextId := nextId + 1;
      items := items + [a.(id := nextId)];
      version := version + 1;
    }

    method UpdateComment(id: int, comment: string)
      modifies this
      ensures Value() == old(Value()).UpdateComment(id, comment)
    {
      var index := Index(id);
      if index < 0 { return; }
      items := items[index := items[index].(comment := comment)];
      version := version + 1;
    }

    method Remove(id: int)
      modifies this
      ensures Value() == old(Value()).Remove(id)
    {
      var index := Index(id);
      if index < 0 { return; }
      items := items[..index] + items[index + 1..];
      version := version + 1;
    }

    method Clear() returns (count: nat)
      modifies this
      ensures Value() == old(Value()).Clear() && count == old(|items|)
    {
      count := |items|;
      items := [];
      if count > 0 { version := version + 1; }
    }
  }

  /** The builders and the one-entry cache in front of them. */
  class Renderer {
    const painter: Painter
    var sourceSet: bool
    var sourceVersion: nat
    var valid: bool
    var key: Key
    var screen: Screen
    ghost var painted: State // the state the cached screen was built from

    /** Whatever is cached is the display of an earlier moment of the view now in state `s`. */
    ghost predicate Fits(s: State)
      reads this
    {
      valid ==> !painted.view.editing && Follows(painted, s) && key == KeyOf(painted, key.lay.width) &&
                screen == Display(painter, painted, key.lay.width)
    }

    constructor (painter: Painter, ghost s: State)
      ensures this.painter == painter && !valid && !sourceSet
    {
      this.painter := painter;
      sourceSet, sourceVersion, valid := false, 0, false;
      key := Key(None, 0, 0, DiffView, false, Layout(0, 0, false));
      screen := Screen([], -1);
      painted := s;
    }

    method EnsureSource(version: nat)
      modifies this
      ensures sourceSet && sourceVersion == version
      ensures valid ==> old(valid) && old(sourceSet) && old(sourceVersion) == version
      ensures key == old(key) && screen == old(screen) && painted == old(painted)
    {
      if sourceSet && sourceVersion == version { return; }
      sourceSet, sourceVersion, valid := true, version, false;
    }

    method AddNotes(src: Source, notes: seq<Annotation>, index: int, width: int) returns (lines: seq<DisplayLine>)
      ensures lines == NoteLines(painter, src, notes, |notes|, index, width)
    {
      lines := [];
      for i := 0 to |notes|
        invariant lines == NoteLines(painter, src, notes, i, index, width)
      {
        if src.ShownAfter(index, notes[i]) { lines := lines + Rows(painter.noteRows(notes[i], width), -1, false); }
      }
    }

    method BuildBody(src: Source, ins: Inputs) returns (body: Screen)
      ensures body == BodyUpTo(painter, src, ins, src.Len())
    {
      var lines, start := [], -1;
      for i := 0 to src.Len()
        invariant Screen(lines, start) == BodyUpTo(painter, src, ins, i)
      {
        var notes := AddNotes(src, ins.notes, i, ins.lay.width);
        lines := lines + (SourceRows(painter, src, i, ins.lay) + notes);
        if ins.editorAt == Some(i) {
          start := |lines|;
          lines := lines + Rows(painter.editorRows(ins.draft), -1, true);
        }
      }
      return Screen(lines, start);
    }

    method BuildUncached(s: State, width: int) returns (built: Screen)
      ensures built == Display(painter, s, width)
    {
      var src := s.doc.Shown();
      if s.doc.loading { return Message("Loading annotation view..."); }
      if s.doc.err.Some? { return Message(painter.error(s.doc.err.value)); }
      if src.file.None? { return Message("(no files)"); }
      if src.presentation.FileView? {
        if src.file.value.contentErr.Some? { return Message(painter.error(src.file.value.contentErr.value)); }
        if !src.file.value.contentLoaded { return Message("Loading complete file..."); }
      } else if src.Len() == 0 {
        return Message(painter.dimmed("(unchanged file; press v to view the complete file)"));
      }
      built := BuildBody(src, InputsOf(s, width));
    }

    /** Cached or not, the result is what the uncached builder would return. */
    method BuildDisplayLines(s: State, width: int) returns (built: Screen)
      requires Fits(s)
      modifies this
      ensures built == Display(painter, s, width) && Fits(s)
    {
      EnsureSource(s.view.sourceVersion);
      if s.view.editing {
        built := BuildUncached(s, width);
        return;
      }
      var now := KeyOf(s, width);
      if valid && key == now {
        KeyDecides(painter, painted, s, width, width);
        return screen;
      }
      built := BuildUncached(s, width);
      valid, key, screen, painted := true, now, built, s;
    }
  }

  // ---------- the view ----------

  lemma {:induction false} KeepsEditor(s: State, e: Event)
    requires EditorHasFile(s)
    ensures EditorHasFile(Apply(s, e).state)
  {
    assert QuietState(s, s);
    match e
    case User(i) => if !i.CopyNotes? { IntentOutcome(s, i); }
    case RevisionLoaded(m) => LoadKeepsEditor(s, m);
    case TargetsLoaded(m) => TargetsOutcome(s, m);
    case FileLoaded(m) => FileLoadedOutcome(s, m, FileIndex(s.doc.files, m.path, 0));
    case FilePicked(path) =>
      var index := FileIndex(s.doc.files, path, 0);
      if index >= 0 { ShowFileOutcome(s, index); }
    case CommentPicked(id) => CommentPickedOutcome(s, id);
    case RevisionPicked(change) => RevisionPickedOutcome(s, change);
    case _ => OtherOutcome(s, e);
  }

  lemma LoadKeepsEditor(s: State, m: RevisionMsg)
    requires EditorHasFile(s)
    ensures EditorHasFile(OnRevisionLoaded(s, m).state)
  {
    if Replaces(s, m) {
      var t := ShowRevision(LoadDone(s), m);
      assert QuietState(t, t);
      JumpAfter(t, t);
    }
  }

  /** The focus does not matter to which comments cover the cursor. */
  lemma {:induction false} SameCovering(s: State, t: State, all: seq<Annotation>, n: nat)
    requires s.doc == t.doc && s.view.cursor == t.view.cursor && n <= |all|
    ensures CoveringFrom(s, all, n) == CoveringFrom(t, all, n)
  {
    if n > 0 { SameCovering(s, t, all, n - 1); }
  }

  class AnnotationView {
    const online: bool
    const notes: NoteStore
    var renderer: Renderer
    var doc: Document
    var copiedVersion: nat
    var confirming: bool
    var nextRequest: nat
    var loadRequest: nat
    var targetsRequest: nat
    var cursor: int
    var selectionAnchor: int
    var scrollX: int
    var wrap: bool
    var editing: bool
    var draft: string
    var focused: int
    var sourceVersion: nat

    function State(): State
      reads this, notes
    {
      ReviewState.State(online, doc, notes.Value(), copiedVersion, confirming,
                        Requests(nextRequest, loadRequest, targetsRequest),
                        View(cursor, selectionAnchor, scrollX, wrap, editing, draft, focused, sourceVersion))
    }

    /** An open editor has a file, and the cached screen belongs to this view. */
    ghost predicate Valid()
      reads this, notes, renderer
    {
      EditorHasFile(State()) && renderer.Fits(State())
    }

    constructor (online: bool, revision: string, painter: Painter)
      ensures Valid() && State() == New(online, revision) && fresh(notes) && fresh(renderer) &&
              renderer.painter == painter
    {
      this.online := online;
      doc := Document(revision, "", "", [], 0, DiffView, revision != "", None);
      copiedVersion, confirming := 0, false;
      nextRequest, loadRequest, targetsRequest := 0, 0, 0;
      cursor, selectionAnchor, scrollX, wrap := 0, -1, 0, false;
      editing, draft, focused, sourceVersion := false, "", 0, 0;
      notes := new NoteStore();
      renderer := new Renderer(painter, New(online, revision));
    }

    method NextCommentable(src: Source) returns (index: nat)
      ensures index == FirstCommentable(src, 0)
    {
      for i := 0 to src.Len()
        invariant FirstCommentable(src, 0) == FirstCommentable(src, i)
      {
        if src.Commentable(i) { return i; }
      }
      return 0;
    }

    method ResetPosition()
      modifies this
      ensures State() == ReviewState.ResetPosition(old(State())) && renderer == old(renderer)
    {
      sourceVersion := sourceVersion + 1;
      selectionAnchor, scrollX, editing := -1, 0, false;
      cursor := NextCommentable(doc.Shown());
    }

    method LoadRevision(revision: string) returns (cmd: Cmd)
      modifies this
      ensures Outcome(State(), cmd) == LoadRevisionStep(old(State()), revision) && renderer == old(renderer)
    {
      targetsRequest := 0;
      nextRequest := nextRequest + 1;
      if !online || revision == "" { return Nothing; }
      loadRequest := nextRequest;
      cmd := ReviewState.LoadRevision(nextRequest, revision, doc.presentation.FileView?);
    }

    method SelectRevision(revision: string) returns (cmd: Cmd)
      modifies this
      ensures Outcome(State(), cmd) == ReviewState.SelectRevision(old(State()), revision) && renderer == old(renderer)
    {
      if revision != doc.revision && editing { return BLOCKED; }
      if revision == "" || revision == doc.revision || revision == doc.loadingRevision { return Nothing; }
      cmd := LoadRevision(revision);
      if cmd != Nothing { doc := doc.(loadingRevision := revision); }
    }

    method CurrentFileLoad() returns (cmd: Cmd)
      ensures cmd == LoadCurrentFile(State())
    {
      var f := doc.CurrentFile();
      if !online || f.None? || f.value.contentLoaded || f.value.contentErr.Some? { return Nothing; }
      cmd := LoadFile(doc.revision, f.value.path);
    }

    method FindFile(path: string) returns (index: int)
      ensures index == FileIndex(doc.files, path, 0)
    {
      for i := 0 to |doc.files|
        invariant FileIndex(doc.files, path, 0) == FileIndex(doc.files, path, i)
      {
        if doc.files[i].path == path { return i; }
      }
      return -1;
    }

    /** Moves to the file of the focused annotation, or drops the focus. */
    method OpenFocusedFile() returns (found: bool, cmd: Cmd)
      modifies this
      ensures renderer == old(renderer) && found == FocusedFile(old(State())).Some?
      ensures found ==> State() == AtFile(old(State()), FocusedFile(old(State())).value)
      ensures !found ==> Outcome(State(), cmd) == LoseFocus(old(State()))
    {
      cmd := Nothing;
      var a := notes.Find(focused);
      if a.None? || a.value.changeId != doc.revision {
        focused := 0;
        return false, cmd;
      }
      var index := FindFile(a.value.file);
      if index < 0 {
        focused := 0;
        return false, Notice("Annotation file is unavailable");
      }
      doc := doc.(file := index);
      sourceVersion := sourceVersion + 1;
      found := true;
    }

    method GoTo(index: nat)
      modifies this
      ensures State() == PlaceCursor(old(State()), index) && renderer == old(renderer)
    {
      cursor, selectionAnchor, scrollX := index, -1, 0;
    }

    method FocusedLine() returns (at: Option<nat>)
      ensures at == FocusedAnchor(State())
    {
      var a := notes.Find(focused);
      var f := doc.CurrentFile();
      if a.None? || f.None? || a.value.changeId != doc.revision || a.value.file != f.value.path { return None; }
      at := doc.Shown().Anchor(a.value);
    }

    method JumpInFile() returns (cmd: Cmd)
      modifies this
      ensures Outcome(State(), cmd) == ReviewState.JumpInFile(old(State())) && renderer == old(renderer)
    {
      var found;
      found, cmd := OpenFocusedFile();
      if !found { return; }
      var at := FocusedLine();
      if at.Some? {
        GoTo(at.value);
        return Nothing;
      }
      cmd := Unavailable(State());
      focused := 0;
    }

    method JumpToFocused() returns (cmd: Cmd)
      modifies this
      ensures Outcome(State(), cmd) == ReviewState.JumpToFocused(old(State())) && renderer == old(renderer)
    {
      if doc.presentation.FileView? {
        cmd := JumpInFile();
        return;
      }
      var found;
      found, cmd := OpenFocusedFile();
      if !found { return; }
      var at := FocusedLine();
      if at.Some? {
        GoTo(at.value);
        return Nothing;
      }
      doc := doc.(presentation := FileView);
      ResetPosition();
      cmd := FallBack();
    }

    method FallBack() returns (cmd: Cmd)
      modifies this
      ensures Outcome(State(), cmd) == ReviewState.FallBack(old(State())) && renderer == old(renderer)
    {
      var f := doc.CurrentFile();
      if f.Some? && f.value.contentLoaded {
        cmd := JumpInFile();
        return;
      }
      cmd := CurrentFileLoad();
      if cmd == Nothing {
        cmd := Unavailable(State());
        focused := 0;
      }
    }

    method RevisionLoaded(m: RevisionMsg) returns (cmd: Cmd)
      modifies this
      ensures Outcome(State(), cmd) == OnRevisionLoaded(old(State()), m) && renderer == old(renderer)
    {
      if m.requestId == 0 || m.requestId != loadRequest { return Nothing; }
      var initial, pending := doc.loading && doc.loadingRevision == "", doc.loadingRevision != "";
      if m.changeId != (if pending then doc.loadingRevision else doc.revision) || (!initial && !pending) {
        return Nothing;
      }
      loadRequest := 0;
      doc := doc.(loadingRevision := "", loading := false);
      if pending && editing { return BLOCKED; }
      if m.err.Some? && pending {
        focused := 0;
        return Notice(m.err.value);
      }
      doc := doc.(revision := m.changeId, description := m.description, err := m.err);
      if m.err.Some? {
        doc := doc.(files := []);
        sourceVersion := sourceVersion + 1;
        return Nothing;
      }
      doc := doc.(files := m.files, file := 0);
      ResetPosition();
      if focused != 0 {
        cmd := JumpToFocused();
      } else if doc.presentation.FileView? {
        cmd := CurrentFileLoad();
      } else {
        cmd := Nothing;
      }
    }

    method TargetsLoaded(m: TargetsMsg) returns (cmd: Cmd)
      modifies this
      ensures Outcome(State(), cmd) == OnTargetsLoaded(old(State()), m) && renderer == old(renderer)
    {
      if m.requestId == 0 || m.requestId != targetsRequest || m.changeId != doc.revision { return Nothing; }
      targetsRequest := 0;
      if m.err.Some? { return Notice(m.err.value); }
      var targets := [];
      for i := 0 to |m.targets|
        invariant targets == NotRoot(m.targets, i)
      {
        if m.targets[i] != ROOT_CHANGE { targets := targets + [m.targets[i]]; }
      }
      if |targets| == 0 { return Nothing; }
      if |targets| > 1 { return OpenPicker; }
      focused := 0;
      cmd := SelectRevision(targets[0]);
    }

    method PutContent(index: nat, m: FileMsg)
      requires index < |doc.files|
      modifies this
      ensures State() == WithContent(old(State()), index, m) && renderer == old(renderer)
    {
      var f := doc.files[index].(contentErr := m.err, contentLoaded := m.err.None?);
      if m.err.None? { f := f.(content := m.content); }
      doc := doc.(files := doc.files[index := f]);
      sourceVersion := sourceVersion + 1;
    }

    method FileLoaded(m: FileMsg) returns (cmd: Cmd)
      modifies this
      ensures Outcome(State(), cmd) == OnFileLoaded(old(State()), m) && renderer == old(renderer)
    {
      if m.changeId != doc.revision { return Nothing; }
      var index := FindFile(m.path);
      if index < 0 { return Nothing; }
      PutContent(index, m);
      if focused != 0 && doc.presentation.FileView? {
        var a := notes.Find(focused);
        if a.Some? && a.value.file == m.path {
          cmd := JumpToFocused();
          return;
        }
      }
      return Nothing;
    }

    method ShowFile(index: nat) returns (cmd: Cmd)
      requires index < |doc.files|
      modifies this
      ensures Outcome(State(), cmd) == ReviewState.ShowFile(old(State()), index) && renderer == old(renderer)
    {
      doc := doc.(file := index);
      focused := 0;
      ResetPosition();
      if doc.presentation.FileView? { cmd := CurrentFileLoad(); } else { cmd := Nothing; }
    }

    method CommentPicked(id: Option<int>) returns (cmd: Cmd)
      modifies this
      ensures Outcome(State(), cmd) == OnCommentPicked(old(State()), id) && renderer == old(renderer)
    {
      if id.None? { return Notice("Annotation not found"); }
      var a := notes.Find(id.value);
      if a.None? { return Notice("Annotation not found"); }
      if a.value.changeId != doc.revision && editing { return BLOCKED; }
      doc := doc.(presentation := DiffView);
      sourceVersion := sourceVersion + 1;
      focused := a.value.id;
      if a.value.changeId == doc.revision && !doc.loading {
        cmd := JumpToFocused();
      } else {
        cmd := SelectRevision(a.value.changeId);
      }
    }

    method RevisionPicked(revision: string) returns (cmd: Cmd)
      modifies this
      ensures Outcome(State(), cmd) == OnRevisionPicked(old(State()), revision) && renderer == old(renderer)
    {
      if revision == "" { return Notice("Revision not found"); }
      if revision != doc.revision && editing { return BLOCKED; }
      focused := 0;
      cmd := SelectRevision(revision);
    }

    method NavigateRevision(child: bool) returns (cmd: Cmd)
      modifies this
      ensures Outcome(State(), cmd) == OnNavigateRevision(old(State()), child) && renderer == old(renderer)
    {
      if editing { return BLOCKED; }
      if doc.loadingRevision != "" { return Nothing; }
      nextRequest := nextRequest + 1;
      if !online || doc.revision == "" { return Nothing; }
      targetsRequest := nextRequest;
      cmd := LoadTargets(nextRequest, doc.revision, child);
    }

    /** Saves the draft as a new comment or over the focused one, and leaves the editor. */
    method SaveEditor()
      requires editing ==> doc.CurrentFile().Some?
      modifies this, notes
      ensures State() == OnSave(old(State())).state && renderer == old(renderer)
    {
      if !editing { return; }
      var comment := Trim(draft);
      if focused != 0 {
        if comment != "" { notes.UpdateComment(focused, comment); }
      } else if comment != "" {
        notes.Add(NewAnnotation(State(), comment));
      }
      editing, selectionAnchor := false, -1;
    }

    method Covering() returns (found: seq<Annotation>)
      modifies this
      ensures found == AnnotationsAtCursor(old(State())) && State() == DropStaleFocus(old(State())) &&
              renderer == old(renderer)
    {
      var a := FocusedAtCursor(State());
      if a.Some? { return [a.value]; }
      if focused != 0 {
        var known := notes.Find(focused);
        if known.None? { focused := 0; }
      }
      found := CoveringNotes();
      SameCovering(old(State()), State(), NotesHere(), |NotesHere()|);
    }

    method CoveringNotes() returns (found: seq<Annotation>)
      ensures found == CoveringFrom(State(), NotesHere(), |NotesHere()|)
    {
      found := [];
      var here := NotesHere();
      for i := 0 to |here|
        invariant found == CoveringFrom(State(), here, i)
      {
        if CoversCursor(State(), here[i]) { found := found + [here[i]]; }
      }
    }

    function NotesHere(): seq<Annotation>
      reads this, notes
    {
      notes.Value().ForFile(doc.revision, doc.CurrentPath(), |notes.items|)
    }

    method AddNote() returns (cmd: Cmd)
      modifies this
      ensures Outcome(State(), cmd) == OnAdd(old(State())) && renderer == old(renderer)
    {
      var at := Covering();
      if |at| > 1 { return OpenPicker; }
      if |at| == 1 {
        draft, editing, focused := at[0].comment, true, at[0].id;
      } else if doc.Shown().Commentable(cursor) {
        draft, editing, focused := "", true, 0;
      }
      return Nothing;
    }

    method DeleteNote() returns (cmd: Cmd)
      modifies this, notes
      ensures Outcome(State(), cmd) == OnDelete(old(State())) && renderer == old(renderer)
    {
      var at := Covering();
      if |at| > 1 { return OpenPicker; }
      if |at| == 1 {
        notes.Remove(at[0].id);
        focused := 0;
      }
      return Nothing;
    }

    method CopyNotes() returns (cmd: Cmd)
      modifies this
      ensures Outcome(State(), cmd) == OnCopy(old(State())) && renderer == old(renderer)
    {
      if |notes.items| == 0 { return Notice("No annotations to copy"); }
      copiedVersion := notes.version;
      cmd := Copy(notes.items);
    }

    method Scroll(delta: int)
      modifies this
      ensures State() == Scrolled(old(State()), delta) && renderer == old(renderer)
    {
      if !wrap { scrollX := if scrollX + delta < 0 then 0 else scrollX + delta; }
    }

    method NavigateFile(delta: int) returns (cmd: Cmd)
      modifies this
      ensures Outcome(State(), cmd) == OnNavigateFile(old(State()), delta) && renderer == old(renderer)
    {
      if |doc.files| == 0 || delta == 0 { return Nothing; }
      cmd := ShowFile((doc.file + delta) % |doc.files|);
    }

    method Toggle() returns (cmd: Cmd)
      modifies this
      ensures Outcome(State(), cmd) == OnTogglePresentation(old(State())) && renderer == old(renderer)
    {
      doc := doc.(presentation := if doc.presentation.DiffView? then FileView else DiffView);
      focused := 0;
      ResetPosition();
      if doc.presentation.FileView? { cmd := CurrentFileLoad(); } else { cmd := Nothing; }
    }

    method ClearNotes() returns (cmd: Cmd)
      modifies this, notes
      ensures Outcome(State(), cmd) == Outcome(ClearFocus(old(State()).(store := old(notes.Value()).Clear())),
                                               Notice("Cleared " + Itoa(old(|notes.items|)) + " annotations"))
      ensures renderer == old(renderer)
    {
      var count := notes.Clear();
      focused := 0;
      cmd := Notice("Cleared " + Itoa(count) + " annotations");
    }

    method LeaveEditor(i: Intent) returns (cmd: Cmd)
      requires !confirming && (i.Cancel? || i.EditorCancel?) && (editing ==> doc.CurrentFile().Some?)
      modifies this
      ensures Outcome(State(), cmd) == OnIntent(old(State()), i) && renderer == old(renderer)
    {
      cmd := if i.Cancel? && !editing then CloseView else Nothing;
      if editing || i.EditorCancel? { editing, selectionAnchor := false, -1; }
    }

    method SimpleIntent(i: Intent) returns (cmd: Cmd)
      requires !confirming && ViewIntent(i) && (editing ==> doc.CurrentFile().Some?)
      modifies this
      ensures Outcome(State(), cmd) == OnIntent(old(State()), i) && renderer == old(renderer)
    {
      if i.Cancel? || i.EditorCancel? {
        cmd := LeaveEditor(i);
        return;
      }
      cmd := Nothing;
      match i {
        case Move(c, a, keep) =>
          cursor, selectionAnchor := c, a;
          if !keep { focused := 0; }
        case OpenFilePicker =>
          cmd := if doc.loading then Notice("File picker is still loading")
                 else if |doc.files| == 0 then Notice("No changed files found") else OpenPicker;
        case OpenCommentPicker => cmd := if |notes.items| == 0 then Notice("No annotations") else OpenPicker;
        case ScrollHorizontal(delta) => Scroll(delta);
        case ToggleWrap => wrap, scrollX := !wrap, 0;
      }
    }

    method HandleIntent(i: Intent) returns (cmd: Cmd)
      requires editing ==> doc.CurrentFile().Some?
      modifies this, notes
      ensures Outcome(State(), cmd) == OnIntent(old(State()), i) && renderer == old(renderer)
    {
      if confirming { return Nothing; }
      if ViewIntent(i) {
        cmd := SimpleIntent(i);
        return;
      }
      match i {
        case EditorSave => SaveEditor(); cmd := Nothing;
        case FileNavigate(delta) => cmd := NavigateFile(delta);
        case RevisionNavigate(child) => cmd := NavigateRevision(child);
        case TogglePresentation => cmd := Toggle();
        case AddNote => cmd := AddNote();
        case DeleteNote => cmd := DeleteNote();
        case ClearNotes => cmd := ClearNotes();
        case CopyNotes => cmd := CopyNotes();
      }
    }

    method PointerEvent(e: Event)
      requires (editing ==> doc.CurrentFile().Some?) && (e.LineClicked? || e.Wheel?)
      modifies this
      ensures Outcome(State(), Nothing) == Apply(old(State()), e) && renderer == old(renderer)
    {
      match e {
        case LineClicked(i, keep) =>
          if !confirming && !editing && doc.Shown().Commentable(i) {
            cursor, selectionAnchor := i, -1;
            if !keep { focused := 0; }
          }
        case Wheel(delta) => if !confirming { Scroll(delta); }
      }
    }

    /** Whether the view may close; otherwise a confirmation opens. */
    method RequestClose() returns (cmd: Cmd)
      modifies this`confirming
      ensures Outcome(State(), cmd) == if MayClose(old(State())) then Outcome(old(State()), CloseView)
                                       else Outcome(old(State()).(confirming := true), Nothing)
    {
      if |notes.items| == 0 || notes.version == copiedVersion { return CloseView; }
      confirming := true;
      return Nothing;
    }

    method SmallEvent(e: Event) returns (cmd: Cmd)
      requires (editing ==> doc.CurrentFile().Some?) &&
               (e.LineClicked? || e.Wheel? || e.Typed? || e.CloseRequested? || e.ConfirmationClosed?)
      modifies this
      ensures Outcome(State(), cmd) == Apply(old(State()), e) && renderer == old(renderer)
    {
      cmd := Nothing;
      if e.LineClicked? || e.Wheel? {
        PointerEvent(e);
      } else if e.Typed? {
        if editing { draft := e.draft; }
      } else if e.CloseRequested? {
        cmd := RequestClose();
      } else {
        confirming := false;
      }
    }

    method Handle(e: Event) returns (cmd: Cmd)
      requires editing ==> doc.CurrentFile().Some?
      modifies this, notes
      ensures Outcome(State(), cmd) == Apply(old(State()), e) && renderer == old(renderer)
    {
      match e {
        case User(i) => cmd := HandleIntent(i);
        case RevisionLoaded(m) => cmd := RevisionLoaded(m);
        case TargetsLoaded(m) => cmd := TargetsLoaded(m);
        case FileLoaded(m) => cmd := FileLoaded(m);
        case FilePicked(path) =>
          var index := FindFile(path);
          if index < 0 { cmd := Nothing; } else { cmd := ShowFile(index); }
        case CommentPicked(id) => cmd := CommentPicked(id);
        case RevisionPicked(change) => cmd := RevisionPicked(change);
        case _ => cmd := SmallEvent(e);
      }
    }

    /** One message or intent; whatever is cached stays the screen of an earlier moment of this view. */
    method Process(e: Event) returns (cmd: Cmd)
      requires Valid()
      modifies this, notes
      ensures Valid() && Outcome(State(), cmd) == Apply(old(State()), e) && renderer == old(renderer)
    {
      ghost var before := State();
      KeepsEditor(before, e);
      ApplyFollows(before, e);
      cmd := Handle(e);
      if renderer.valid { FollowsTwice(renderer.painted, before, State()); }
    }

    /**
     Handlers that keep the cursor visible, or scroll, build the display lines for their viewport's width as their last
     step.
     */
    method Update(e: Event, buildFor: Option<int>) returns (cmd: Cmd)
      requires Valid()
      modifies this, notes, renderer
      ensures Valid() && Outcome(State(), cmd) == Apply(old(State()), e) && renderer == old(renderer)
    {
      cmd := Process(e);
      if buildFor.Some? { var _ := BuildDisplayLines(buildFor.value); }
    }

    method ThemeChanged(painter: Painter)
      requires Valid()
      modifies this
      ensures Valid() && State() == old(State()) && fresh(renderer) && renderer.painter == painter
    {
      renderer := new Renderer(painter, State());
    }

    /** Whatever was called before, the lines shown are those the uncached builder gives for the current state. */
    method BuildDisplayLines(width: int) returns (built: Screen)
      requires Valid()
      modifies renderer
      ensures Valid() && State() == old(State()) && renderer == old(renderer) &&
              built == Display(renderer.painter, State(), width)
    {
      built := renderer.BuildDisplayLines(State(), width);
    }
  }
}
