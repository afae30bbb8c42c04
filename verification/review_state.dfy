/**
 The annotation view as a state machine (internal/ui/annotation/model.go, annotation.go, loader.go).
 Each handler maps a state to the next one and to the command it returns.
 */
module ReviewState {
  import opened Text
  import opened PatchLines
  import opened ReviewSource

  // ---------- the annotation store ----------

  datatype Store = Store(items: seq<Annotation>, nextId: int, version: nat)
  {
    function IndexFrom(id: int, i: nat): int
      requires i <= |items|
      decreases |items| - i
    {
      if i == |items| then -1 else if items[i].id == id then i else IndexFrom(id, i + 1)
    }

    /** Position of the annotation with this id, or -1. */
    function Index(id: int): int { IndexFrom(id, 0) }

    function Add(a: Annotation): Store { Store(items + [a.(id := nextId + 1)], nextId + 1, version + 1) }

    function Find(id: int): Option<Annotation> {
      var i := Index(id);
      if 0 <= i < |items| then Some(items[i]) else None
    }

    function UpdateComment(id: int, comment: string): Store {
      var i := Index(id);
      if 0 <= i < |items| then Store(items[i := items[i].(comment := comment)], nextId, version + 1) else this
    }

    function Remove(id: int): Store {
      var i := Index(id);
      if 0 <= i < |items| then Store(items[..i] + items[i + 1..], nextId, version + 1) else this
    }

    function Clear(): Store { Store([], nextId, if |items| > 0 then version + 1 else version) }

    function ForFile(changeId: string, file: string, n: nat): seq<Annotation>
      requires n <= |items|
    {
      if n == 0 then []
      else ForFile(changeId, file, n - 1) +
           if items[n - 1].changeId == changeId && items[n - 1].file == file then [items[n - 1]] else []
    }
  }

  // ---------- the document and the view ----------

  datatype Document = Document(revision: string, loadingRevision: string, description: string, files: seq<FileItem>,
                               file: int, presentation: Presentation, loading: bool, err: Option<string>)
  {
    function CurrentFile(): Option<FileItem> { if 0 <= file < |files| then Some(files[file]) else None }
    function Shown(): Source { Source(CurrentFile(), presentation) }
    function CurrentPath(): string { if CurrentFile().Some? then CurrentFile().value.path else "" }
  }

  datatype Cmd =
    | Nothing
    | LoadRevision(id: nat, revision: string, fullFile: bool)
    | LoadTargets(id: nat, revision: string, child: bool)
    | LoadFile(revision: string, path: string)
    | Notice(text: string)
    | OpenPicker
    | CloseView
    | Copy(annotations: seq<Annotation>)

  // The last request id given out, the outstanding revision load and the outstanding target query (0: none).
  datatype Requests = Requests(next: nat, load: nat, targets: nat)

  datatype View = View(cursor: int, selectionAnchor: int, scrollX: int, wrap: bool,
                       editing: bool, draft: string, focused: int, sourceVersion: nat)
  {
    function SelectedFrom(): int {
      if selectionAnchor < 0 || cursor <= selectionAnchor then cursor else selectionAnchor
    }
    function SelectedTo(): int { if selectionAnchor < 0 || selectionAnchor <= cursor then cursor else selectionAnchor }
  }

  // `online` says whether there is a context to run commands in.
  datatype State = State(online: bool, doc: Document, store: Store, copiedVersion: nat, confirming: bool, req: Requests,
                         view: View)

  datatype Outcome = Outcome(state: State, cmd: Cmd)

  function New(online: bool, revision: string): State {
    State(online, Document(revision, "", "", [], 0, DiffView, revision != "", None), Store([], 0, 0), 0, false,
          Requests(0, 0, 0), View(0, -1, 0, false, false, "", 0, 0))
  }

  // ---------- shared steps ----------

  function ClearFocus(s: State): State { s.(view := s.view.(focused := 0)) }

  function FirstCommentable(src: Source, i: nat): nat
    requires i <= src.Len()
    decreases src.Len() - i
  {
    if i == src.Len() then 0 else if src.Commentable(i) then i else FirstCommentable(src, i + 1)
  }

  /** The view at the top of its source: a new source version, no selection, no editor. */
  function TopOf(v: View, src: Source): View {
    v.(sourceVersion := v.sourceVersion + 1, cursor := FirstCommentable(src, 0), selectionAnchor := -1, scrollX := 0,
       editing := false)
  }

  function ResetPosition(s: State): State { s.(view := TopOf(s.view, s.doc.Shown())) }

  function LoadRevisionStep(s: State, revision: string): Outcome {
    var id := s.req.next + 1;
    if !s.online || revision == "" then Outcome(s.(req := Requests(id, s.req.load, 0)), Nothing)
    else Outcome(s.(req := Requests(id, id, 0)), LoadRevision(id, revision, s.doc.presentation.FileView?))
  }

  const BLOCKED := Notice("Finish editing the comment before navigating revisions")

  function SelectRevision(s: State, revision: string): Outcome {
    if revision != s.doc.revision && s.view.editing then Outcome(s, BLOCKED)
    else if revision == "" || revision == s.doc.revision || revision == s.doc.loadingRevision then Outcome(s, Nothing)
    else
      var o := LoadRevisionStep(s, revision);
      if o.cmd.Nothing? then o
      else Outcome(o.state.(doc := o.state.doc.(loadingRevision := revision)), o.cmd)
  }

  function LoadCurrentFile(s: State): Cmd {
    var f := s.doc.CurrentFile();
    if !s.online || f.None? || f.value.contentLoaded || f.value.contentErr.Some? then Nothing
    else LoadFile(s.doc.revision, f.value.path)
  }

  function FileIndex(files: seq<FileItem>, path: string, i: nat): (r: int)
    requires i <= |files|
    ensures r == -1 || i <= r < |files|
    decreases |files| - i
  {
    if i == |files| then -1 else if files[i].path == path then i else FileIndex(files, path, i + 1)
  }

  function AnchorInView(s: State, a: Annotation): Option<nat> {
    var f := s.doc.CurrentFile();
    if f.None? || a.changeId != s.doc.revision || a.file != f.value.path then None else s.doc.Shown().AnchorOf(a)
  }

  function PlaceCursor(s: State, index: nat): State {
    s.(view := s.view.(cursor := index, selectionAnchor := -1, scrollX := 0))
  }

  function AtFile(s: State, index: int): State {
    s.(doc := s.doc.(file := index), view := s.view.(sourceVersion := s.view.sourceVersion + 1))
  }

  function InFileView(s: State): State { ResetPosition(s.(doc := s.doc.(presentation := FileView))) }

  function Unavailable(s: State): Cmd {
    var f := s.doc.CurrentFile();
    Notice(if f.Some? && f.value.contentErr.Some?
           then "Annotation file could not be loaded: " + f.value.contentErr.value
           else "Annotation location is unavailable")
  }

  /** The file of the focused annotation in the current revision, if the focus and the file exist. */
  function FocusedFile(s: State): Option<int> {
    var a := s.store.Find(s.view.focused);
    if a.None? || a.value.changeId != s.doc.revision then None
    else
      var index := FileIndex(s.doc.files, a.value.file, 0);
      if index < 0 then None else Some(index)
  }

  /** The focus is dropped; only a missing file is worth a message. */
  function LoseFocus(s: State): Outcome {
    var a := s.store.Find(s.view.focused);
    Outcome(ClearFocus(s),
            if a.None? || a.value.changeId != s.doc.revision then Nothing else Notice("Annotation file is unavailable"))
  }

  function FocusedAnchor(s: State): Option<nat> {
    var a := s.store.Find(s.view.focused);
    if a.None? then None else AnchorInView(s, a.value)
  }

  /** jumpToFocusedAnnotation once the complete file is shown. */
  function JumpInFile(s: State): Outcome {
    match FocusedFile(s)
    case None => LoseFocus(s)
    case Some(index) =>
      var t := AtFile(s, index);
      match FocusedAnchor(t)
      case Some(at) => Outcome(PlaceCursor(t, at), Nothing)
      case None => Outcome(ClearFocus(t), Unavailable(t))
  }

  /** jumpToFocusedAnnotation; in the diff view it falls back once to the complete file. */
  function JumpToFocused(s: State): Outcome {
    if s.doc.presentation.FileView? then JumpInFile(s)
    else
      match FocusedFile(s)
      case None => LoseFocus(s)
      case Some(index) =>
        var t := AtFile(s, index);
        match FocusedAnchor(t)
        case Some(at) => Outcome(PlaceCursor(t, at), Nothing)
        case None => FallBack(InFileView(t))
  }

  function FallBack(t: State): Outcome {
    var f := t.doc.CurrentFile();
    if f.Some? && f.value.contentLoaded then JumpInFile(t)
    else if !LoadCurrentFile(t).Nothing? then Outcome(t, LoadCurrentFile(t))
    else Outcome(ClearFocus(t), Unavailable(t))
  }

  // ---------- messages ----------

  datatype RevisionMsg = RevisionMsg(changeId: string, requestId: nat, description: string, files: seq<FileItem>,
                                     err: Option<string>)

  datatype TargetsMsg = TargetsMsg(changeId: string, requestId: nat, targets: seq<string>, err: Option<string>)

  datatype FileMsg = FileMsg(changeId: string, path: string, content: seq<string>, err: Option<string>)

  function Expected(s: State): string {
    if s.doc.loadingRevision != "" then s.doc.loadingRevision else s.doc.revision
  }

  /** Whether a load response is taken as the answer to the outstanding load. */
  predicate Accepts(s: State, m: RevisionMsg) {
    m.requestId != 0 && m.requestId == s.req.load && m.changeId == Expected(s) &&
    (s.doc.loading || s.doc.loadingRevision != "")
  }

  function LoadDone(s: State): State {
    s.(req := s.req.(load := 0), doc := s.doc.(loadingRevision := "", loading := false))
  }

  function OnRevisionLoaded(s: State, m: RevisionMsg): Outcome {
    if !Accepts(s, m) then Outcome(s, Nothing)
    else if s.doc.loadingRevision != "" && s.view.editing then Outcome(LoadDone(s), BLOCKED)
    else if s.doc.loadingRevision != "" && m.err.Some? then Outcome(ClearFocus(LoadDone(s)), Notice(m.err.value))
    else if m.err.Some? then Outcome(ShowError(LoadDone(s), m), Nothing)
    else AfterLoad(ShowRevision(LoadDone(s), m))
  }

  // The expected revision is the one loaded: the pending one, or the document's own on the first load.
  function ShowError(s: State, m: RevisionMsg): State {
    s.(doc := s.doc.(revision := m.changeId, description := m.description, err := m.err, files := []),
       view := s.view.(sourceVersion := s.view.sourceVersion + 1))
  }

  function ShowRevision(s: State, m: RevisionMsg): State {
    ResetPosition(s.(doc := s.doc.(revision := m.changeId, description := m.description, err := None, files := m.files,
                                   file := 0)))
  }

  function AfterLoad(s: State): Outcome {
    if s.view.focused != 0 then JumpToFocused(s)
    else if s.doc.presentation.FileView? then Outcome(s, LoadCurrentFile(s))
    else Outcome(s, Nothing)
  }

  const ROOT_CHANGE := "zzzzzzzz"

  function NotRoot(targets: seq<string>, n: nat): seq<string>
    requires n <= |targets|
  {
    if n == 0 then [] else NotRoot(targets, n - 1) + if targets[n - 1] == ROOT_CHANGE then [] else [targets[n - 1]]
  }

  function OnTargetsLoaded(s: State, m: TargetsMsg): Outcome {
    if m.requestId == 0 || m.requestId != s.req.targets || m.changeId != s.doc.revision then Outcome(s, Nothing)
    else
      var s := s.(req := s.req.(targets := 0));
      if m.err.Some? then Outcome(s, Notice(m.err.value))
      else
        var targets := NotRoot(m.targets, |m.targets|);
        if |targets| == 0 then Outcome(s, Nothing)
        else if |targets| == 1 then SelectRevision(ClearFocus(s), targets[0])
        else Outcome(s, OpenPicker)
  }

  function WithContent(s: State, index: nat, m: FileMsg): State
    requires index < |s.doc.files|
  {
    var f := s.doc.files[index];
    var g :=
      f.(contentErr := m.err, contentLoaded := m.err.None?, content := if m.err.None? then m.content else f.content);
    s.(doc := s.doc.(files := s.doc.files[index := g]), view := s.view.(sourceVersion := s.view.sourceVersion + 1))
  }

  function OnFileLoaded(s: State, m: FileMsg): Outcome {
    var index := FileIndex(s.doc.files, m.path, 0);
    if m.changeId != s.doc.revision || index < 0 then Outcome(s, Nothing)
    else
      var t := WithContent(s, index, m);
      var a := t.store.Find(t.view.focused);
      if t.view.focused != 0 && t.doc.presentation.FileView? && a.Some? && a.value.file == m.path then JumpToFocused(t)
      else Outcome(t, Nothing)
  }

  function OnFilePicked(s: State, path: string): Outcome {
    var index := FileIndex(s.doc.files, path, 0);
    if index < 0 then Outcome(s, Nothing)
    else ShowFile(s, index)
  }

  function ShowFile(s: State, index: nat): Outcome
    requires index < |s.doc.files|
  {
    var s := ResetPosition(ClearFocus(s.(doc := s.doc.(file := index))));
    Outcome(s, if s.doc.presentation.FileView? then LoadCurrentFile(s) else Nothing)
  }

  // `id` is None when the picked value is not a number.
  function OnCommentPicked(s: State, id: Option<int>): Outcome {
    if id.None? || s.store.Find(id.value).None? then Outcome(s, Notice("Annotation not found"))
    else
      var a := s.store.Find(id.value).value;
      if a.changeId != s.doc.revision && s.view.editing then Outcome(s, BLOCKED)
      else
        var t := s.(doc := s.doc.(presentation := DiffView),
                    view := s.view.(sourceVersion := s.view.sourceVersion + 1, focused := a.id));
        if a.changeId == t.doc.revision && !t.doc.loading then JumpToFocused(t) else SelectRevision(t, a.changeId)
  }

  function OnRevisionPicked(s: State, revision: string): Outcome {
    if revision == "" then Outcome(s, Notice("Revision not found"))
    else if revision != s.doc.revision && s.view.editing then Outcome(s, BLOCKED)
    else SelectRevision(ClearFocus(s), revision)
  }

  // ---------- intents ----------

  function FocusedAtCursor(s: State): Option<Annotation> {
    var a := s.store.Find(s.view.focused);
    if s.view.focused == 0 || a.None? || !CoversCursor(s, a.value) then None else a
  }

  predicate CoversCursor(s: State, a: Annotation) {
    s.doc.CurrentFile().Some? && a.changeId == s.doc.revision && a.file == s.doc.CurrentFile().value.path &&
    s.doc.Shown().Contains(s.view.cursor, a)
  }

  function CoveringFrom(s: State, all: seq<Annotation>, n: nat): seq<Annotation>
    requires n <= |all|
  {
    if n == 0 then [] else CoveringFrom(s, all, n - 1) + if CoversCursor(s, all[n - 1]) then [all[n - 1]] else []
  }

  function AnnotationsAtCursor(s: State): seq<Annotation> {
    match FocusedAtCursor(s)
    case Some(a) => [a]
    case None =>
      var all := s.store.ForFile(s.doc.revision, s.doc.CurrentPath(), |s.store.items|);
      CoveringFrom(s, all, |all|)
  }

  // A focus that no longer names an annotation is dropped as soon as it is looked at.
  function DropStaleFocus(s: State): State {
    if s.view.focused != 0 && s.store.Find(s.view.focused).None? then ClearFocus(s) else s
  }

  function StartEditor(s: State, draft: string, focused: int): State {
    s.(view := s.view.(draft := draft, editing := true, focused := focused))
  }

  function OnAdd(s: State): Outcome {
    var at := AnnotationsAtCursor(s);
    var s := DropStaleFocus(s);
    if |at| == 1 then Outcome(StartEditor(s, at[0].comment, at[0].id), Nothing)
    else if |at| == 0 then
      Outcome(if s.doc.Shown().Commentable(s.view.cursor) then StartEditor(s, "", 0) else s, Nothing)
    else Outcome(s, OpenPicker)
  }

  function OnDelete(s: State): Outcome {
    var at := AnnotationsAtCursor(s);
    var s := DropStaleFocus(s);
    if |at| == 1 then Outcome(ClearFocus(s.(store := s.store.Remove(at[0].id))), Nothing)
    else if |at| == 0 then Outcome(s, Nothing)
    else Outcome(s, OpenPicker)
  }

  /** The annotation made from the current selection; the view has a current file whenever it is called. */
  function NewAnnotation(s: State, comment: string): Annotation
    requires s.doc.CurrentFile().Some?
  {
    var src, from, to := s.doc.Shown(), s.view.SelectedFrom(), s.view.SelectedTo();
    var located := 0 <= from <= to < src.Len();
    Annotation(0, s.doc.revision, s.doc.CurrentFile().value.path,
               if located then src.OldRange(from, to) else NO_LINES,
               if located then src.NewRange(from, to) else NO_LINES,
               if located then LinesBetween(src.Snippet(from, to)) else "", comment)
  }

  function Saved(s: State): Store
    requires s.doc.CurrentFile().Some?
  {
    var comment := Trim(s.view.draft);
    if comment == "" then s.store
    else if s.view.focused != 0 then s.store.UpdateComment(s.view.focused, comment)
    else s.store.Add(NewAnnotation(s, comment))
  }

  function OnSave(s: State): Outcome
    requires s.view.editing ==> s.doc.CurrentFile().Some?
  {
    if !s.view.editing then Outcome(s, Nothing) else Outcome(CancelEditor(s.(store := Saved(s))), Nothing)
  }

  function CancelEditor(s: State): State { s.(view := s.view.(editing := false, selectionAnchor := -1)) }

  function OnNavigateFile(s: State, delta: int): Outcome {
    if |s.doc.files| == 0 || delta == 0 then Outcome(s, Nothing)
    else ShowFile(s, (s.doc.file + delta) % |s.doc.files|)
  }

  function OnNavigateRevision(s: State, child: bool): Outcome {
    if s.view.editing then Outcome(s, BLOCKED)
    else if s.doc.loadingRevision != "" then Outcome(s, Nothing)
    else
      var id := s.req.next + 1;
      if !s.online || s.doc.revision == "" then Outcome(s.(req := s.req.(next := id)), Nothing)
      else Outcome(s.(req := s.req.(next := id, targets := id)), LoadTargets(id, s.doc.revision, child))
  }

  function OnTogglePresentation(s: State): Outcome {
    var next := if s.doc.presentation.DiffView? then FileView else DiffView;
    var s := ResetPosition(ClearFocus(s.(doc := s.doc.(presentation := next))));
    Outcome(s, if s.doc.presentation.FileView? then LoadCurrentFile(s) else Nothing)
  }

  function OnCopy(s: State): Outcome {
    if |s.store.items| == 0 then Outcome(s, Notice("No annotations to copy"))
    else Outcome(s.(copiedVersion := s.store.version), Copy(s.store.items))
  }

  predicate MayClose(s: State) { |s.store.items| == 0 || s.store.version == s.copiedVersion }

  datatype Intent =
    | Cancel | EditorCancel | EditorSave
    | Move(cursor: int, selectionAnchor: int, keepFocus: bool)
    | FileNavigate(delta: int) | OpenFilePicker | OpenCommentPicker | RevisionNavigate(child: bool)
    | ScrollHorizontal(delta: int) | TogglePresentation | ToggleWrap
    | AddNote | DeleteNote | ClearNotes | CopyNotes

  function OnIntent(s: State, i: Intent): Outcome
    requires s.view.editing ==> s.doc.CurrentFile().Some?
  {
    if s.confirming then Outcome(s, Nothing)
    else
      match i
      case Cancel => if s.view.editing then Outcome(CancelEditor(s), Nothing) else Outcome(s, CloseView)
      case EditorCancel => Outcome(CancelEditor(s), Nothing)
      case EditorSave => OnSave(s)
      case Move(c, a, keep) => Outcome(MoveTo(s, c, a, keep), Nothing)
      case FileNavigate(delta) => OnNavigateFile(s, delta)
      case OpenFilePicker =>
        Outcome(s, if s.doc.loading then Notice("File picker is still loading")
                   else if |s.doc.files| == 0 then Notice("No changed files found") else OpenPicker)
      case OpenCommentPicker => Outcome(s, if |s.store.items| == 0 then Notice("No annotations") else OpenPicker)
      case RevisionNavigate(child) => OnNavigateRevision(s, child)
      case ScrollHorizontal(delta) => Outcome(Scrolled(s, delta), Nothing)
      case TogglePresentation => OnTogglePresentation(s)
      case ToggleWrap => Outcome(s.(view := s.view.(wrap := !s.view.wrap, scrollX := 0)), Nothing)
      case AddNote => OnAdd(s)
      case DeleteNote => OnDelete(s)
      case ClearNotes =>
        Outcome(ClearFocus(s.(store := s.store.Clear())), Notice("Cleared " + Itoa(|s.store.items|) + " annotations"))
      case CopyNotes => OnCopy(s)
  }

  function MoveTo(s: State, cursor: int, selectionAnchor: int, keepFocus: bool): State {
    s.(view := s.view.(cursor := cursor, selectionAnchor := selectionAnchor,
                       focused := if keepFocus then s.view.focused else 0))
  }

  function Scrolled(s: State, delta: int): State {
    if s.view.wrap then s
    else s.(view := s.view.(scrollX := if s.view.scrollX + delta < 0 then 0 else s.view.scrollX + delta))
  }

  datatype Event =
    | User(intent: Intent)
    | RevisionLoaded(revision: RevisionMsg) | TargetsLoaded(targets: TargetsMsg) | FileLoaded(content: FileMsg)
    | FilePicked(path: string) | CommentPicked(id: Option<int>) | RevisionPicked(change: string)
    | LineClicked(index: int, keepFocus: bool) | Wheel(delta: int) | Typed(draft: string)
    | CloseRequested | ConfirmationClosed

  /** One message or intent. */
  function Apply(s: State, e: Event): Outcome
    requires s.view.editing ==> s.doc.CurrentFile().Some?
  {
    match e
    case User(i) => OnIntent(s, i)
    case RevisionLoaded(m) => OnRevisionLoaded(s, m)
    case TargetsLoaded(m) => OnTargetsLoaded(s, m)
    case FileLoaded(m) => OnFileLoaded(s, m)
    case FilePicked(path) => OnFilePicked(s, path)
    case CommentPicked(id) => OnCommentPicked(s, id)
    case RevisionPicked(change) => OnRevisionPicked(s, change)
    case LineClicked(i, keep) =>
      Outcome(if s.confirming || s.view.editing || !s.doc.Shown().Commentable(i) then s else MoveTo(s, i, -1, keep),
              Nothing)
    case Wheel(delta) => Outcome(if s.confirming then s else Scrolled(s, delta), Nothing)
    case Typed(draft) => Outcome(if s.view.editing then s.(view := s.view.(draft := draft)) else s, Nothing)
    case CloseRequested => if MayClose(s) then Outcome(s, CloseView) else Outcome(s.(confirming := true), Nothing)
    case ConfirmationClosed => Outcome(s.(confirming := false), Nothing)
  }
}
