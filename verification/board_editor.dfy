/**
 * The board editor (components/BoardEditor.tsx): the working copy of the
 * board, and the clue-edit modal's state (`editingIndices`, `tempClue`).
 * Every handler is a function from the editor state before to the state after.
 */
module BoardEditor {
  import opened Base
  import opened Text
  import opened Types

  datatype EditorState = EditorState(board: Board, editing: Option<ClueRef>, tempClue: Option<Clue>)

  /** The modal, when open, edits a clue that is on the board. */
  predicate Valid(s: EditorState) {
    s.editing.Some? ==> InRange(s.board, s.editing.value)
  }

  /** Every category holds the same number of clues as a default one. */
  predicate FiveClueColumns(board: Board) {
    forall c :: 0 <= c < |board| ==> |board[c].clues| == NewCategoryClues
  }

  const NewCategoryTitle: string := "NEW SECTOR"
  const NewCategoryClues: nat := 5
  const PlaceholderQuestion: string := "Enter question here..."
  const PlaceholderAnswer: string := "Enter answer here..."

  /** `handleCategoryTitleChange`: category `index` gets the new title and
      nothing else on the board changes. */
  function RetitleCategory(board: Board, index: nat, title: string): (r: Board)
    requires index < |board|
    ensures |r| == |board|
    ensures r[index].title == title
    ensures r[index].id == board[index].id && r[index].clues == board[index].clues
    ensures forall c :: 0 <= c < |r| && c != index ==> r[c] == board[c]
  {
    board[index := board[index].(title := title)]
  }

  /** The category `addCategory` appends, with `Date.now()` passed in as `stamp`:
      titled NEW SECTOR, five placeholder clues worth 100 to 500, the category
      id `cat-<stamp>` and the clue ids `clue-<stamp>-<i>`. */
  function NewCategory(stamp: nat): (cat: Category)
    ensures cat.id == "cat-" + NatToString(stamp)
    ensures cat.title == NewCategoryTitle
    ensures |cat.clues| == NewCategoryClues
    ensures forall i :: 0 <= i < |cat.clues| ==>
      cat.clues[i].id == "clue-" + NatToString(stamp) + "-" + NatToString(i)
      && cat.clues[i].value == (i + 1) * 100
      && cat.clues[i].question == PlaceholderQuestion
      && cat.clues[i].answer == PlaceholderAnswer
  {
    Category(
      "cat-" + NatToString(stamp),
      NewCategoryTitle,
      seq(NewCategoryClues, i requires 0 <= i < NewCategoryClues =>
        Clue("clue-" + NatToString(stamp) + "-" + NatToString(i), (i + 1) * 100,
             PlaceholderQuestion, PlaceholderAnswer)))
  }

  /** `addCategory`: one more category at the end, everything before it unchanged. */
  function AddCategory(board: Board, stamp: nat): (r: Board)
    ensures |r| == |board| + 1
    ensures r[..|board|] == board
    ensures r[|board|] == NewCategory(stamp)
    ensures FiveClueColumns(board) ==> FiveClueColumns(r)
  {
    board + [NewCategory(stamp)]
  }

  /** `board.filter((_, i) => i !== index)`, written as the filter it is. */
  function WithoutIndex(board: Board, index: int): (r: Board)
    ensures !(0 <= index < |board|) ==> r == board
    ensures 0 <= index < |board| ==>
      && |r| == |board| - 1
      && (forall c :: 0 <= c < index ==> r[c] == board[c])
      && (forall c :: index <= c < |r| ==> r[c] == board[c + 1])
    decreases |board|
  {
    if board == [] then []
    else
      var rest := WithoutIndex(board[1..], index - 1);
      if index == 0 then rest else [board[0]] + rest
  }

  /** `removeCategory`: when the deletion is confirmed, category `index` goes
      and the others keep their order; when it is not, nothing changes. */
  function RemoveCategory(board: Board, index: int, confirmed: bool): (r: Board)
    ensures !confirmed ==> r == board
    ensures confirmed && 0 <= index < |board| ==> r == board[..index] + board[index + 1..]
    ensures FiveClueColumns(board) ==> FiveClueColumns(r)
  {
    if confirmed then
      var r := WithoutIndex(board, index);
      assert 0 <= index < |board| ==> r == board[..index] + board[index + 1..];
      r
    else board
  }

  /** `openClueModal`: the modal opens on the clue at `at`, with a copy of it to edit. */
  function OpenClueModal(s: EditorState, at: ClueRef): (r: EditorState)
    requires InRange(s.board, at)
    ensures r.board == s.board
    ensures r.editing == Some(at) && r.tempClue == Some(ClueAt(s.board, at))
    ensures Valid(r)
  {
    s.(editing := Some(at), tempClue := Some(ClueAt(s.board, at)))
  }

  /** `closeModal`: the modal closes and the board is kept. */
  function CloseModal(s: EditorState): (r: EditorState)
    ensures r.board == s.board && r.editing.None? && r.tempClue.None?
    ensures Valid(r)
  {
    s.(editing := None, tempClue := None)
  }

  /** `saveClue`: with a clue being edited, exactly that clue is replaced by
      the edited copy and the modal closes; without one nothing happens. */
  function SaveClue(s: EditorState): (r: EditorState)
    requires Valid(s)
    ensures s.editing.None? || s.tempClue.None? ==> r == s
    ensures s.editing.Some? && s.tempClue.Some? ==>
      var at := s.editing.value;
      && r.editing.None? && r.tempClue.None?
      && |r.board| == |s.board|
      && |r.board[at.cat].clues| == |s.board[at.cat].clues|
      && ClueAt(r.board, at) == s.tempClue.value
      && r.board[at.cat].id == s.board[at.cat].id
      && r.board[at.cat].title == s.board[at.cat].title
      && (forall k :: 0 <= k < |r.board[at.cat].clues| && k != at.clue ==>
            r.board[at.cat].clues[k] == s.board[at.cat].clues[k])
      && (forall c :: 0 <= c < |r.board| && c != at.cat ==> r.board[c] == s.board[c])
    ensures FiveClueColumns(s.board) ==> FiveClueColumns(r.board)
  {
    match (s.editing, s.tempClue)
    case (Some(at), Some(clue)) =>
      var cat := s.board[at.cat];
      var board := s.board[at.cat := cat.(clues := cat.clues[at.clue := clue])];
      CloseModal(s.(board := board))
    case _ => s
  }

  /** The point-value input: text that does not parse as an integer stores 0. */
  function EditValue(clue: Clue, input: string): (r: Clue)
    ensures r.(value := clue.value) == clue
    ensures ParseInt(input).None? ==> r.value == 0
    ensures ParseInt(input).Some? ==> r.value == ParseInt(input).value
  {
    clue.(value := ParseInt(input).GetOr(0))
  }

  /** The question text area. */
  function EditQuestion(clue: Clue, text: string): (r: Clue)
    ensures r.(question := clue.question) == clue && r.question == text
  {
    clue.(question := text)
  }

  /** The answer input. */
  function EditAnswer(clue: Clue, text: string): (r: Clue)
    ensures r.(answer := clue.answer) == clue && r.answer == text
  {
    clue.(answer := text)
  }

  /** Opening a clue and saving it without edits gives back the same board. */
  lemma SaveUneditedIsNoOp(s: EditorState, at: ClueRef)
    requires InRange(s.board, at)
    ensures SaveClue(OpenClueModal(s, at)).board == s.board
  {
    var r := SaveClue(OpenClueModal(s, at));
    assert r.board[at.cat].clues == s.board[at.cat].clues;
  }

  /** Retitling a category and then restoring its old title gives back the same board. */
  lemma RetitleUndo(board: Board, index: nat, title: string)
    requires index < |board|
    ensures RetitleCategory(RetitleCategory(board, index, title), index, board[index].title) == board
  {
  }

  /** Removing the category just added gives back the board it was added to. */
  lemma RemoveAddedCategory(board: Board, stamp: nat)
    ensures RemoveCategory(AddCategory(board, stamp), |board|, true) == board
  {
    assert AddCategory(board, stamp)[..|board|] == board;
  }
}
