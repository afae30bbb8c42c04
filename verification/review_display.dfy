/**
 What the annotation view shows: the rows of every line, each comment straight after its line, the editor after the
 selection (internal/ui/annotation/renderer.go).
 */
module ReviewDisplay {
  import opened Text
  import opened PatchLines
  import opened ReviewSource
  import opened ReviewState
  import opened ReviewCache
  import opened ReviewNotes

  /** There is a file to show, and its text is there. */
  predicate HasBody(s: State) {
    var f := s.doc.CurrentFile();
    !s.doc.loading && s.doc.err.None? && f.Some? &&
    (s.doc.presentation.FileView? ==> f.value.contentErr.None? && f.value.contentLoaded) &&
    (s.doc.presentation.DiffView? ==> f.value.patch.Some? && |f.value.patch.value.lines| > 0)
  }

  /** How the painter paints line `i` of the file or of its diff. */
  function LineTexts(p: Painter, s: State, width: int, i: nat): seq<string>
    requires i < s.doc.Shown().Len()
  {
    var f, lay := s.doc.CurrentFile().value, Layout(width, s.view.scrollX, s.view.wrap);
    if s.doc.presentation.FileView? then p.fileRows(f.path, f.content[i], i, |f.content|, lay)
    else p.patchRows(f.path, f.patch.value.lines[i], lay)
  }

  function SourceLine(i: int): string -> DisplayLine { (t: string) => DisplayLine(t, i, false) }

  function EditorLine(): string -> DisplayLine { (t: string) => DisplayLine(t, -1, true) }

  function NoteBlock(p: Painter, width: int): Annotation -> seq<DisplayLine> {
    (a: Annotation) => Mapped(SourceLine(-1), p.noteRows(a, width))
  }

  /** A comment on the file shown, to be shown after line `i`. */
  function BelongsAfter(s: State, i: int): Annotation -> bool {
    (a: Annotation) => a.changeId == s.doc.revision && a.file == s.doc.CurrentPath() && s.doc.Shown().ShownAfter(i, a)
  }

  /** The comments after line `i`, in the order they were made. */
  function NotesAfter(s: State, i: int): seq<Annotation> { Filter(BelongsAfter(s, i), s.store.items) }

  function NoteRowsAfter(p: Painter, s: State, width: int, i: int): seq<DisplayLine> {
    Flat(Mapped(NoteBlock(p, width), NotesAfter(s, i)), |NotesAfter(s, i)|)
  }

  function EditorRows(p: Painter, s: State, i: int): seq<DisplayLine> {
    if s.view.editing && s.view.SelectedTo() == i then Mapped(EditorLine(), p.editorRows(s.view.draft)) else []
  }

  function LineAndNotes(p: Painter, s: State, width: int, i: nat): seq<DisplayLine>
    requires i < s.doc.Shown().Len()
  {
    Mapped(SourceLine(i), LineTexts(p, s, width, i)) + NoteRowsAfter(p, s, width, i)
  }

  function Block(p: Painter, s: State, width: int, i: nat): seq<DisplayLine>
    requires i < s.doc.Shown().Len()
  {
    LineAndNotes(p, s, width, i) + EditorRows(p, s, i)
  }

  function Blocks(p: Painter, s: State, width: int): (blocks: seq<seq<DisplayLine>>)
    ensures |blocks| == s.doc.Shown().Len() && forall i :: 0 <= i < |blocks| ==> blocks[i] == Block(p, s, width, i)
  {
    seq(s.doc.Shown().Len(), i requires 0 <= i < s.doc.Shown().Len() => Block(p, s, width, i))
  }

  // ---------- the builders show these blocks ----------

  lemma RowsAre(texts: seq<string>, i: int)
    ensures Rows(texts, i, false) == Mapped(SourceLine(i), texts)
    ensures Rows(texts, -1, true) == Mapped(EditorLine(), texts)
  {
  }

  function After(src: Source, i: int): Annotation -> bool { (a: Annotation) => src.ShownAfter(i, a) }

  lemma FlatMappedSnoc<A, B>(f: A -> seq<B>, xs: seq<A>, x: A)
    ensures Flat(Mapped(f, xs + [x]), |xs| + 1) == Flat(Mapped(f, xs), |xs|) + f(x)
  {
    MappedSnoc(f, xs, x);
    FlatSnoc(Mapped(f, xs), f(x));
  }

  lemma {:induction false} NoteLinesAre(p: Painter, src: Source, notes: seq<Annotation>, n: nat, i: int, width: int)
    requires n <= |notes|
    ensures var shown := Filter(After(src, i), notes[..n]);
            NoteLines(p, src, notes, n, i, width) == Flat(Mapped(NoteBlock(p, width), shown), |shown|)
  {
    if n > 0 {
      NoteLinesAre(p, src, notes, n - 1, i, width);
      FilterSnoc(After(src, i), notes, n - 1);
      var before := Filter(After(src, i), notes[..n - 1]);
      if src.ShownAfter(i, notes[n - 1]) {
        RowsAre(p.noteRows(notes[n - 1], width), -1);
        FlatMappedSnoc(NoteBlock(p, width), before, notes[n - 1]);
      } else {
        Empties(before);
        Empties(NoteLines(p, src, notes, n - 1, i, width));
      }
    }
  }

  lemma NotesOfInputs(p: Painter, s: State, width: int, i: int, notes: seq<Annotation>)
    requires notes == InputsOf(s, width).notes
    ensures NoteLines(p, s.doc.Shown(), notes, |notes|, i, width) == NoteRowsAfter(p, s, width, i)
  {
    var st, src := s.store, s.doc.Shown();
    ForFileIsFilter(st, s.doc.revision, s.doc.CurrentPath(), |st.items|);
    Empties(st.items);
    NoteLinesAre(p, src, notes, |notes|, i, width);
    Empties(notes);
    FilterTwice(OnFile(s.doc.revision, s.doc.CurrentPath()), After(src, i), BelongsAfter(s, i), st.items);
  }

  lemma LineBlockIs(p: Painter, s: State, width: int, i: nat)
    requires i < s.doc.Shown().Len()
    ensures LineBlock(p, s.doc.Shown(), InputsOf(s, width), i) == LineAndNotes(p, s, width, i)
  {
    RowsAre(LineTexts(p, s, width, i), i);
    NotesOfInputs(p, s, width, i, InputsOf(s, width).notes);
  }

  lemma BodyStep(p: Painter, s: State, width: int, n: nat, before: Screen, after: Screen, block: seq<DisplayLine>)
    requires n < s.doc.Shown().Len() && before == BodyUpTo(p, s.doc.Shown(), InputsOf(s, width), n)
    requires after == BodyUpTo(p, s.doc.Shown(), InputsOf(s, width), n + 1) && block == Block(p, s, width, n)
    ensures after.lines == before.lines + block
    ensures after.editorStart == if s.view.editing && s.view.SelectedTo() == n
                                 then |before.lines| + |LineAndNotes(p, s, width, n)| else before.editorStart
  {
    LineBlockIs(p, s, width, n);
    RowsAre(p.editorRows(s.view.draft), 0);
    Regroup(before.lines, LineAndNotes(p, s, width, n), EditorRows(p, s, n));
    Empties(LineAndNotes(p, s, width, n));
  }

  lemma NoPieces<T>(pieces: seq<seq<T>>, none: seq<T>)
    requires |none| == 0
    ensures Flat(pieces, 0) == none
  {
  }

  lemma NextPiece<T>(pieces: seq<seq<T>>, k: nat)
    requires k < |pieces|
    ensures Flat(pieces, k + 1) == Flat(pieces, k) + pieces[k]
  {
  }

  lemma {:induction false} BodyIsBlocks(p: Painter, s: State, width: int, n: nat, body: Screen,
                                        blocks: seq<seq<DisplayLine>>)
    requires n <= s.doc.Shown().Len() && body == BodyUpTo(p, s.doc.Shown(), InputsOf(s, width), n)
    requires |blocks| == s.doc.Shown().Len() && forall i :: 0 <= i < |blocks| ==> blocks[i] == Block(p, s, width, i)
    ensures body.lines == Flat(blocks, n)
  {
    if n == 0 {
      NoPieces(blocks, body.lines);
    } else {
      var before := BodyUpTo(p, s.doc.Shown(), InputsOf(s, width), n - 1);
      BodyIsBlocks(p, s, width, n - 1, before, blocks);
      BodyStep(p, s, width, n - 1, before, body, blocks[n - 1]);
      NextPiece(blocks, n - 1);
    }
  }

  lemma BodyShown(p: Painter, s: State, width: int)
    requires HasBody(s)
    ensures Display(p, s, width) == BodyUpTo(p, s.doc.Shown(), InputsOf(s, width), s.doc.Shown().Len())
  {
  }

  /** The view shows, line after line, the line's rows, its comments in the order they were made, and the editor. */
  lemma DisplayIsBlocks(p: Painter, s: State, width: int)
    requires HasBody(s)
    ensures Display(p, s, width).lines == Flat(Blocks(p, s, width), s.doc.Shown().Len())
  {
    BodyShown(p, s, width);
    BodyIsBlocks(p, s, width, s.doc.Shown().Len(), Display(p, s, width), Blocks(p, s, width));
  }

  /** Otherwise a single message says why. */
  lemma MessageInstead(p: Painter, s: State, width: int)
    requires !HasBody(s)
    ensures Display(p, s, width).editorStart == -1 && |Display(p, s, width).lines| == 1
    ensures Display(p, s, width).lines[0].sourceIndex == -1 && !Display(p, s, width).lines[0].editor
    ensures var f, text := s.doc.CurrentFile(), Display(p, s, width).lines[0].text;
            (s.doc.loading ==> text == "Loading annotation view...") &&
            (!s.doc.loading && s.doc.err.Some? ==> text == p.error(s.doc.err.value)) &&
            (!s.doc.loading && s.doc.err.None? ==>
               (f.None? ==> text == "(no files)") &&
               (f.Some? && s.doc.presentation.DiffView? ==>
                  text == p.dimmed("(unchanged file; press v to view the complete file)")) &&
               (f.Some? && s.doc.presentation.FileView? && f.value.contentErr.Some? ==>
                  text == p.error(f.value.contentErr.value)) &&
               (f.Some? && s.doc.presentation.FileView? && f.value.contentErr.None? ==>
                  text == "Loading complete file..."))
  {
  }

  // ---------- rows of a line ----------

  function OfLine(i: int): DisplayLine -> bool { (l: DisplayLine) => l.sourceIndex == i }

  lemma {:induction false} FilterNone<T>(q: T -> bool, xs: seq<T>)
    requires forall x :: x in xs ==> !q(x)
    ensures Filter(q, xs) == []
  {
    if xs != [] { FilterNone(q, xs[..|xs| - 1]); }
  }

  /** Only one piece has anything satisfying `q`. */
  lemma {:induction false} FilterFlat<T>(q: T -> bool, pieces: seq<seq<T>>, k: nat, i: nat, own: seq<T>)
    requires k <= |pieces| && (i < k ==> Filter(q, pieces[i]) == own)
    requires forall j :: 0 <= j < k && j != i ==> Filter(q, pieces[j]) == []
    ensures i < k ==> Filter(q, Flat(pieces, k)) == own
    ensures i >= k ==> Filter(q, Flat(pieces, k)) == []
  {
    if k > 0 {
      FilterFlat(q, pieces, k - 1, i, own);
      FilterAppend(q, Flat(pieces, k - 1), pieces[k - 1]);
      Empties(own);
    }
  }

  lemma {:induction false} FlatMembers<T>(pieces: seq<seq<T>>, k: nat, x: T)
    requires k <= |pieces| && x in Flat(pieces, k)
    ensures exists i :: 0 <= i < k && x in pieces[i]
  {
    if x !in pieces[k - 1] { FlatMembers(pieces, k - 1, x); }
  }

  lemma NoteRowsHaveNoLine(p: Painter, s: State, width: int, i: int, l: DisplayLine)
    requires l in NoteRowsAfter(p, s, width, i)
    ensures l.sourceIndex == -1 && !l.editor
  {
    var notes := NotesAfter(s, i);
    var pieces := Mapped(NoteBlock(p, width), notes);
    FlatMembers(pieces, |notes|, l);
    var k :| 0 <= k < |notes| && l in pieces[k];
    RowOf(p.noteRows(notes[k], width), -1, l);
  }

  lemma RowOf(texts: seq<string>, i: int, l: DisplayLine)
    requires l in Mapped(SourceLine(i), texts)
    ensures l.sourceIndex == i && !l.editor
  {
  }

  lemma BlockRowsOf(p: Painter, s: State, width: int, k: nat, i: nat)
    requires k < s.doc.Shown().Len()
    ensures Filter(OfLine(i), Block(p, s, width, k)) ==
            if i == k then Mapped(SourceLine(i), LineTexts(p, s, width, i)) else []
  {
    var rows := Mapped(SourceLine(k), LineTexts(p, s, width, k));
    var notes, editor := NoteRowsAfter(p, s, width, k), EditorRows(p, s, k);
    FilterAppend(OfLine(i), rows + notes, editor);
    FilterAppend(OfLine(i), rows, notes);
    forall l | l in notes ensures !OfLine(i)(l) { NoteRowsHaveNoLine(p, s, width, k, l); }
    FilterNone(OfLine(i), notes);
    FilterNone(OfLine(i), editor);
    if i == k { FilterAll(OfLine(i), rows); } else { FilterNone(OfLine(i), rows); }
    Empties(Filter(OfLine(i), rows));
  }

  /** The rows belonging to line `i` are the painter's rows of that line, all of them, in order and no others. */
  lemma RowsOfLine(p: Painter, s: State, width: int, i: nat)
    requires HasBody(s) && i < s.doc.Shown().Len()
    ensures Filter(OfLine(i), Display(p, s, width).lines) == Mapped(SourceLine(i), LineTexts(p, s, width, i))
  {
    DisplayIsBlocks(p, s, width);
    var blocks, own := Blocks(p, s, width), Mapped(SourceLine(i), LineTexts(p, s, width, i));
    BlockRowsOf(p, s, width, i, i);
    forall j | 0 <= j < |blocks| && j != i
      ensures Filter(OfLine(i), blocks[j]) == []
    {
      BlockRowsOf(p, s, width, j, i);
    }
    FilterFlat(OfLine(i), blocks, |blocks|, i, own);
  }

  // ---------- comments ----------

  /** Pieces before, the piece itself, pieces after. */
  lemma {:induction false} FlatAround<T>(pieces: seq<seq<T>>, k: nat, i: nat) returns (rest: seq<T>)
    requires i < k <= |pieces|
    ensures Flat(pieces, k) == Flat(pieces, i) + pieces[i] + rest
  {
    if i == k - 1 {
      rest := [];
      Empties(Flat(pieces, i) + pieces[i]);
    } else {
      var before := FlatAround(pieces, k - 1, i);
      rest := before + pieces[k - 1];
      Regroup(Flat(pieces, i) + pieces[i], before, pieces[k - 1]);
    }
  }

  /** A comment's rows stand as one block among those of the comments after its line. */
  lemma NoteIsInBlock(p: Painter, s: State, width: int, i: int, a: Annotation)
    returns (before: seq<DisplayLine>, rest: seq<DisplayLine>)
    requires a in NotesAfter(s, i)
    ensures NoteRowsAfter(p, s, width, i) == before + Mapped(SourceLine(-1), p.noteRows(a, width)) + rest
  {
    var notes := NotesAfter(s, i);
    var k :| 0 <= k < |notes| && notes[k] == a;
    before := Flat(Mapped(NoteBlock(p, width), notes), k);
    rest := FlatAround(Mapped(NoteBlock(p, width), notes), |notes|, k);
  }

  /**
   A comment made in the view belongs after exactly one line, inside the selection it was made on; there its rows stand
   in one block, between the line's own rows and the rows of the next line.
   */
  lemma CommentIsShown(p: Painter, s: State, width: int, a: Annotation, from: int, to: int, src: Source)
    returns (at: nat, before: seq<DisplayLine>, rest: seq<DisplayLine>)
    requires HasBody(s) && src == s.doc.Shown() && a in s.store.items
    requires a.changeId == s.doc.revision && a.file == s.doc.CurrentPath()
    requires MadeFrom(a, src, from, to) && src.Commentable(from)
    requires src.presentation.DiffView? ==> WellNumbered(src.PatchLinesOf())
    ensures from <= at <= to && at < src.Len() && forall i :: a in NotesAfter(s, i) <==> i == at
    ensures Block(p, s, width, at) ==
              Mapped(SourceLine(at), LineTexts(p, s, width, at)) +
              (before + Mapped(SourceLine(-1), p.noteRows(a, width)) + rest) + EditorRows(p, s, at)
    ensures Display(p, s, width).lines == Flat(Blocks(p, s, width), src.Len())
  {
    DisplayIsBlocks(p, s, width);
    CommentRoundTrip(src, a, from, to);
    at := src.AnchorOf(a).value;
    forall i ensures a in NotesAfter(s, i) <==> i == at { FilterMembers(BelongsAfter(s, i), s.store.items, a); }
    before, rest := NoteIsInBlock(p, s, width, at, a);
  }

  // ---------- the editor ----------

  function IsEditor(): DisplayLine -> bool { (l: DisplayLine) => l.editor }

  lemma {:induction false} EditorStartsAt(p: Painter, s: State, width: int, n: nat, e: int, body: Screen,
                                          blocks: seq<seq<DisplayLine>>)
    requires n <= s.doc.Shown().Len() && e == s.view.SelectedTo()
    requires body == BodyUpTo(p, s.doc.Shown(), InputsOf(s, width), n)
    requires |blocks| == s.doc.Shown().Len() && forall i :: 0 <= i < |blocks| ==> blocks[i] == Block(p, s, width, i)
    ensures !s.view.editing || !(0 <= e < n) ==> body.editorStart == -1
    ensures s.view.editing && 0 <= e < n ==> body.editorStart == |Flat(blocks, e)| + |LineAndNotes(p, s, width, e)|
  {
    if n > 0 {
      var before := BodyUpTo(p, s.doc.Shown(), InputsOf(s, width), n - 1);
      EditorStartsAt(p, s, width, n - 1, e, before, blocks);
      BodyIsBlocks(p, s, width, n - 1, before, blocks);
      BodyStep(p, s, width, n - 1, before, body, blocks[n - 1]);
    }
  }

  /** While editing, the editor's rows begin at its start, straight after the comments of the selection's last line. */
  lemma EditorIsShown(p: Painter, s: State, width: int, e: nat)
    returns (before: seq<DisplayLine>, rest: seq<DisplayLine>)
    requires HasBody(s) && s.view.editing && e == s.view.SelectedTo() && e < s.doc.Shown().Len()
    ensures before == Flat(Blocks(p, s, width), e) + LineAndNotes(p, s, width, e)
    ensures Display(p, s, width).editorStart == |before|
    ensures Display(p, s, width).lines == before + Mapped(EditorLine(), p.editorRows(s.view.draft)) + rest
  {
    var n := s.doc.Shown().Len();
    DisplayIsBlocks(p, s, width);
    BodyShown(p, s, width);
    EditorStartsAt(p, s, width, n, e, Display(p, s, width), Blocks(p, s, width));
    before := Flat(Blocks(p, s, width), e) + LineAndNotes(p, s, width, e);
    rest := FlatAround(Blocks(p, s, width), n, e);
    Regroup(Flat(Blocks(p, s, width), e), LineAndNotes(p, s, width, e), EditorRows(p, s, e));
  }

  lemma BlockHasNoEditor(p: Painter, s: State, width: int, i: nat, l: DisplayLine)
    requires !s.view.editing && i < s.doc.Shown().Len() && l in Block(p, s, width, i)
    ensures !l.editor
  {
    if l in NoteRowsAfter(p, s, width, i) { NoteRowsHaveNoLine(p, s, width, i, l); }
  }

  /** Outside the editor no row is marked as the editor's. */
  lemma NoEditorShown(p: Painter, s: State, width: int, l: DisplayLine)
    requires HasBody(s) && !s.view.editing
    ensures Display(p, s, width).editorStart == -1
    ensures l in Display(p, s, width).lines ==> !l.editor
  {
    var n := s.doc.Shown().Len();
    DisplayIsBlocks(p, s, width);
    BodyShown(p, s, width);
    EditorStartsAt(p, s, width, n, s.view.SelectedTo(), Display(p, s, width), Blocks(p, s, width));
    if l in Display(p, s, width).lines {
      FlatMembers(Blocks(p, s, width), n, l);
      var i :| 0 <= i < n && l in Blocks(p, s, width)[i];
      BlockHasNoEditor(p, s, width, i, l);
    }
  }
}
