/** What the comments are after each operation on them (internal/ui/annotation/annotation.go, model.go). */
module ReviewNotes {
  import opened Text
  import opened ReviewSource
  import opened ReviewState
  import opened ReviewProtocol

  function HasId(id: int): Annotation -> bool { (a: Annotation) => a.id == id }

  function Others(id: int): Annotation -> bool { (a: Annotation) => a.id != id }

  lemma {:induction false} IndexIsFirst(st: Store, id: int, i: nat)
    requires i <= |st.items|
    ensures st.IndexFrom(id, i) == -1 ==> forall k :: i <= k < |st.items| ==> st.items[k].id != id
    ensures st.IndexFrom(id, i) != -1 ==>
              i <= st.IndexFrom(id, i) < |st.items| && st.items[st.IndexFrom(id, i)].id == id &&
              forall k :: i <= k < st.IndexFrom(id, i) ==> st.items[k].id != id
    decreases |st.items| - i
  {
    if i < |st.items| && st.items[i].id != id { IndexIsFirst(st, id, i + 1); }
  }

  /** A comment is found by its id, if it is there. */
  lemma FindMeans(st: Store, id: int)
    ensures st.Find(id).Some? <==> exists a :: a in st.items && a.id == id
    ensures st.Find(id).Some? ==> st.Find(id).value in st.items && st.Find(id).value.id == id
  {
    IndexIsFirst(st, id, 0);
  }

  /** A new comment comes last, under an id no other has; the others stay as they are. */
  lemma AddMeans(st: Store, a: Annotation)
    requires IdsGrow(st)
    ensures st.Add(a).items == st.items + [a.(id := st.Add(a).nextId)] && st.Add(a).version > st.version
    ensures forall b :: b in st.items ==> b.id < st.Add(a).nextId
  {
  }

  /** Only the text of the comment with that id changes. */
  lemma UpdateMeans(st: Store, id: int, comment: string)
    requires IdsGrow(st)
    ensures st.UpdateComment(id, comment).items ==
            Mapped((a: Annotation) => if a.id == id then a.(comment := comment) else a, st.items)
  {
    IndexIsFirst(st, id, 0);
    var i, out := st.Index(id), Mapped((a: Annotation) => if a.id == id then a.(comment := comment) else a, st.items);
    if i >= 0 {
      SameElements(st.items[i := st.items[i].(comment := comment)], out);
    } else {
      SameElements(st.items, out);
    }
  }

  /** Only the comment with that id goes; the others stay as they are and in order. */
  lemma RemoveMeans(st: Store, id: int)
    requires IdsGrow(st)
    ensures st.Remove(id).items == Filter(Others(id), st.items)
  {
    IndexIsFirst(st, id, 0);
    if st.Index(id) >= 0 { FilterAllBut(Others(id), st.items, st.Index(id)); } else { FilterAll(Others(id), st.items); }
  }

  /** In every reachable state ids are unique, so the operations mean the same there. */
  lemma ReachableIdsGrow(w: World)
    requires Reachable(w)
    ensures IdsGrow(w.state.store)
  {
    ReachableIsGood(w);
  }

  // ---------- what the user does to the comments ----------

  /** The comments on the file shown that the line at the cursor belongs to, in the order they were made. */
  function CoversLine(s: State): Annotation -> bool {
    (a: Annotation) =>
      s.doc.CurrentFile().Some? && a.changeId == s.doc.revision && a.file == s.doc.CurrentFile().value.path &&
      s.doc.Shown().Contains(s.view.cursor, a)
  }

  function OnFile(changeId: string, file: string): Annotation -> bool {
    (a: Annotation) => a.changeId == changeId && a.file == file
  }

  lemma {:induction false} ForFileIsFilter(st: Store, changeId: string, file: string, n: nat)
    requires n <= |st.items|
    ensures st.ForFile(changeId, file, n) == Filter(OnFile(changeId, file), st.items[..n])
  {
    if n > 0 {
      ForFileIsFilter(st, changeId, file, n - 1);
      FilterSnoc(OnFile(changeId, file), st.items, n - 1);
    }
  }

  lemma {:induction false} CoveringIsFilter(s: State, all: seq<Annotation>, n: nat)
    requires n <= |all|
    ensures CoveringFrom(s, all, n) == Filter(CoversLine(s), all[..n])
  {
    if n > 0 {
      CoveringIsFilter(s, all, n - 1);
      FilterSnoc(CoversLine(s), all, n - 1);
    }
  }

  /**
   At the cursor stands the focused comment, if the line belongs to it, and else every comment the line belongs to.
   */
  lemma AtCursorMeans(s: State)
    ensures var f := s.store.Find(s.view.focused);
            AnnotationsAtCursor(s) ==
            if s.view.focused != 0 && f.Some? && CoversLine(s)(f.value) then [f.value]
            else Filter(CoversLine(s), s.store.items)
  {
    var all := s.store.ForFile(s.doc.revision, s.doc.CurrentPath(), |s.store.items|);
    ForFileIsFilter(s.store, s.doc.revision, s.doc.CurrentPath(), |s.store.items|);
    Empties(s.store.items);
    CoveringIsFilter(s, all, |all|);
    Empties(all);
    FilterTwice(OnFile(s.doc.revision, s.doc.CurrentPath()), CoversLine(s), CoversLine(s), s.store.items);
  }

  /** With one comment at the cursor, deleting takes out that one; otherwise it takes out none. */
  lemma DeleteMeans(s: State, o: Outcome)
    requires IdsGrow(s.store) && o == OnDelete(s)
    ensures |AnnotationsAtCursor(s)| == 1 ==>
              o.state.store.items == Filter(Others(AnnotationsAtCursor(s)[0].id), s.store.items) &&
              o.state.view.focused == 0
    ensures |AnnotationsAtCursor(s)| != 1 ==> o.state.store == s.store
    ensures o.cmd == if |AnnotationsAtCursor(s)| > 1 then OpenPicker else Nothing
    ensures o.state.doc == s.doc && o.state.view == s.view.(focused := o.state.view.focused)
  {
    if |AnnotationsAtCursor(s)| == 1 { RemoveMeans(s.store, AnnotationsAtCursor(s)[0].id); }
  }

  /**
   Saving trims what was typed. Nothing left changes nothing; otherwise the comment being edited gets the text, or a new
   one is added for the selection.
   */
  lemma SaveMeans(s: State, o: Outcome, text: string)
    requires IdsGrow(s.store) && s.view.editing && s.doc.CurrentFile().Some? && o == OnSave(s) &&
             text == Trim(s.view.draft)
    ensures text == "" ==> o.state.store == s.store
    ensures text != "" && s.view.focused != 0 ==>
              o.state.store.items ==
              Mapped((a: Annotation) => if a.id == s.view.focused then a.(comment := text) else a, s.store.items)
    ensures text != "" && s.view.focused == 0 ==>
              |o.state.store.items| == |s.store.items| + 1 && o.state.store.items[..|s.store.items|] == s.store.items &&
              IsNewNote(s, o.state.store.items[|s.store.items|], text)
    ensures !o.state.view.editing && o.state.view.selectionAnchor == -1 && o.state.view.cursor == s.view.cursor
  {
    if text != "" && s.view.focused != 0 { UpdateMeans(s.store, s.view.focused, text); }
    if text != "" && s.view.focused == 0 { NewNoteMeans(s, text); }
  }

  /** A comment on the current revision and file with that text, made from the selection. */
  ghost predicate IsNewNote(s: State, a: Annotation, text: string)
    requires s.doc.CurrentFile().Some?
  {
    var lo, hi := Min(s.view.cursor, s.view.selectionAnchor), Max(s.view.cursor, s.view.selectionAnchor);
    var from := if s.view.selectionAnchor < 0 then s.view.cursor else lo;
    var to := if s.view.selectionAnchor < 0 then s.view.cursor else hi;
    a.changeId == s.doc.revision && a.file == s.doc.CurrentFile().value.path && a.comment == text &&
    (0 <= from <= to < s.doc.Shown().Len() ==> MadeFrom(a, s.doc.Shown(), from, to))
  }

  lemma NewNoteMeans(s: State, text: string)
    requires s.doc.CurrentFile().Some?
    ensures IsNewNote(s, NewAnnotation(s, text).(id := s.store.nextId + 1), text)
  {
  }

  /** Clearing leaves no comment and no focus; copying hands over all of them and changes none. */
  lemma ClearAndCopyMean(s: State)
    requires EditorHasFile(s) && !s.confirming
    ensures OnIntent(s, ClearNotes).state.store.items == [] && OnIntent(s, ClearNotes).state.view.focused == 0
    ensures OnIntent(s, ClearNotes).state.doc == s.doc
    ensures s.store.items != [] ==> OnIntent(s, CopyNotes).cmd == Copy(s.store.items)
    ensures OnIntent(s, CopyNotes).state.store == s.store
    ensures s.store.items == [] ==> OnIntent(s, CopyNotes) == Outcome(s, Notice("No annotations to copy"))
  {
  }

  /** While the view asks whether to close, no intent does anything. */
  lemma ConfirmingBlocks(s: State, i: Intent)
    requires EditorHasFile(s) && s.confirming
    ensures OnIntent(s, i) == Outcome(s, Nothing)
  {
  }
}
