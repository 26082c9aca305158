/**
 * The clue-selection state of the game screen (components/GameBoard.tsx):
 * which clue is open, which clue ids have been closed, and whether the open
 * clue's answer is shown. The board itself is a property of the screen and
 * is passed to every transition.
 */
module GameBoard {
  import opened Base
  import opened Types

  /** `activeClue`, `answeredClues` and `showAnswer`. */
  datatype Selection = Selection(active: Option<ClueRef>, answered: set<string>, showAnswer: bool)

  /** The state the screen mounts with. */
  const Initial: Selection := Selection(None, {}, false)

  /** The open clue, if any, is a position on the board being shown. */
  predicate Valid(board: Board, s: Selection) {
    s.active.Some? ==> InRange(board, s.active.value)
  }

  /** `currentClue`: the clue at the open position. */
  function CurrentClue(board: Board, s: Selection): (c: Option<Clue>)
    requires Valid(board, s)
    ensures c.Some? <==> s.active.Some?
    ensures c.Some? ==> c.value == board[s.active.value.cat].clues[s.active.value.clue]
  {
    match s.active
    case None => None
    case Some(at) => Some(ClueAt(board, at))
  }

  /** `handleClueClick`: a clue whose id is already answered ignores the
      click; any other clue becomes the open one with its answer hidden. */
  function ClickClue(board: Board, s: Selection, at: ClueRef): (r: Selection)
    requires InRange(board, at)
    ensures ClueAt(board, at).id in s.answered ==> r == s
    ensures ClueAt(board, at).id !in s.answered ==>
      r.active == Some(at) && !r.showAnswer && r.answered == s.answered
    ensures Valid(board, s) ==> Valid(board, r)
  {
    if ClueAt(board, at).id in s.answered then s
    else s.(active := Some(at), showAnswer := false)
  }

  /** `handleCloseClue`: the open clue's id joins the answered set and no clue
      stays open; with no clue open only `activeClue` is (re)set to none. */
  function CloseClue(board: Board, s: Selection): (r: Selection)
    requires Valid(board, s)
    ensures r.active == None && r.showAnswer == s.showAnswer
    ensures s.active.Some? ==> r.answered == s.answered + {ClueAt(board, s.active.value).id}
    ensures s.active.None? ==> r.answered == s.answered
  {
    match CurrentClue(board, s)
    case Some(clue) => s.(answered := s.answered + {clue.id}, active := None)
    case None => s.(active := None)
  }

  /** The "Reveal Data" button: show the answer of the open clue. */
  function Reveal(s: Selection): (r: Selection)
    ensures r.showAnswer
    ensures r.active == s.active && r.answered == s.answered
  {
    s.(showAnswer := true)
  }

  /** A user action on the game screen. */
  datatype Action = Click(at: ClueRef) | Close | ShowAnswer

  /** Clicks only ever land on cells the board renders. */
  predicate Clickable(board: Board, actions: seq<Action>) {
    forall i :: 0 <= i < |actions| ==> actions[i].Click? ==> InRange(board, actions[i].at)
  }

  function Step(board: Board, s: Selection, a: Action): (r: Selection)
    requires Valid(board, s)
    requires a.Click? ==> InRange(board, a.at)
    ensures Valid(board, r)
  {
    match a
    case Click(at) => ClickClue(board, s, at)
    case Close => CloseClue(board, s)
    case ShowAnswer => Reveal(s)
  }

  function Run(board: Board, s: Selection, actions: seq<Action>): Selection
    requires Valid(board, s) && Clickable(board, actions)
    decreases |actions|
  {
    if actions == [] then s
    else Run(board, Step(board, s, actions[0]), actions[1..])
  }

  /** No sequence of actions ever removes an id from the answered set, and
      the state stays valid for the board throughout. */
  lemma {:induction false} AnsweredOnlyGrows(board: Board, s: Selection, actions: seq<Action>)
    requires Valid(board, s) && Clickable(board, actions)
    ensures s.answered <= Run(board, s, actions).answered
    ensures Valid(board, Run(board, s, actions))
    decreases |actions|
  {
    if actions != [] {
      var next := Step(board, s, actions[0]);
      assert Clickable(board, actions[1..]) by {
        forall i | 0 <= i < |actions| - 1 && actions[1..][i].Click?
          ensures InRange(board, actions[1..][i].at)
        {
          assert actions[1..][i] == actions[i + 1];
        }
      }
      AnsweredOnlyGrows(board, next, actions[1..]);
    }
  }

  /** Every id that joins the answered set is the id of a clue on the board. */
  lemma {:induction false} AnsweredAreBoardIds(board: Board, s: Selection, actions: seq<Action>)
    requires Valid(board, s) && Clickable(board, actions)
    requires forall id :: id in s.answered ==> IsBoardId(board, id)
    ensures forall id :: id in Run(board, s, actions).answered ==> IsBoardId(board, id)
    decreases |actions|
  {
    if actions != [] {
      var next := Step(board, s, actions[0]);
      assert Clickable(board, actions[1..]) by {
        forall i | 0 <= i < |actions| - 1 && actions[1..][i].Click?
          ensures InRange(board, actions[1..][i].at)
        {
          assert actions[1..][i] == actions[i + 1];
        }
      }
      if actions[0].Close? && s.active.Some? {
        assert IsBoardIdAt(board, ClueAt(board, s.active.value).id, s.active.value);
      }
      AnsweredAreBoardIds(board, next, actions[1..]);
    }
  }

  /** From the state the screen mounts with, whatever the user clicks, closes
      and reveals, the answered set only ever holds ids of clues on the board. */
  lemma AnsweredFromMount(board: Board, actions: seq<Action>)
    requires Clickable(board, actions)
    ensures Valid(board, Run(board, Initial, actions))
    ensures forall id :: id in Run(board, Initial, actions).answered ==> IsBoardId(board, id)
  {
    AnsweredOnlyGrows(board, Initial, actions);
    AnsweredAreBoardIds(board, Initial, actions);
  }

  predicate IsBoardIdAt(board: Board, id: string, at: ClueRef) {
    InRange(board, at) && ClueAt(board, at).id == id
  }

  ghost predicate IsBoardId(board: Board, id: string) {
    exists at :: IsBoardIdAt(board, id, at)
  }
}
