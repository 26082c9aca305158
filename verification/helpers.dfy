/** Room-code generation and the default question board (utils/helpers.ts). */
module Helpers {
  import opened Text
  import opened Types

  /** The room-code alphabet: upper-case letters and digits without the
      look-alikes I, O, 0 and 1. */
  const Alphabet: string := "ABCDEFGHJKLMNPQRSTUVWXYZ23456789"

  /** A generated room code has this many characters. */
  const CodeLength: nat := 4

  /** A value `Math.random()` can return. */
  predicate IsRoll(r: real) {
    0.0 <= r < 1.0
  }

  /** The `Math.random()` values one code generation draws, one per character. */
  predicate ValidRolls(rolls: seq<real>) {
    |rolls| == CodeLength && forall i :: 0 <= i < |rolls| ==> IsRoll(rolls[i])
  }

  /** `Math.floor(r * characters.length)`: always a valid index into the
      alphabet, so `charAt` never falls back to the empty string. */
  function RollIndex(r: real): (i: nat)
    requires IsRoll(r)
    ensures i < |Alphabet|
    ensures i as real <= r * |Alphabet| as real < i as real + 1.0
  {
    (r * |Alphabet| as real).Floor
  }

  /** True for the characters a generated code can contain. */
  predicate Unambiguous(c: char) {
    ('A' <= c <= 'Z' || '2' <= c <= '9') && c != 'I' && c != 'O'
  }

  /** The code `generateRoomCode` builds from the four rolls it draws:
      exactly four characters, each from the alphabet, none of them I, O, 0 or 1. */
  function RoomCode(rolls: seq<real>): (code: string)
    requires ValidRolls(rolls)
    ensures |code| == CodeLength
    ensures forall i :: 0 <= i < |code| ==> code[i] in Alphabet && Unambiguous(code[i])
    ensures forall i :: 0 <= i < |code| ==> code[i] == Alphabet[RollIndex(rolls[i])]
  {
    assert forall k :: 0 <= k < |Alphabet| ==> Unambiguous(Alphabet[k]);
    seq(CodeLength, i requires 0 <= i < CodeLength => Alphabet[RollIndex(rolls[i])])
  }

  /** `generateRoomCode` as written: a loop appending one character per roll. */
  method GenerateRoomCode(rolls: seq<real>) returns (code: string)
    requires ValidRolls(rolls)
    ensures |code| == CodeLength
    ensures forall i :: 0 <= i < |code| ==> Unambiguous(code[i])
    ensures code == RoomCode(rolls)
  {
    code := "";
    var i := 0;
    while i < CodeLength
      invariant i <= CodeLength && |code| == i
      invariant forall j :: 0 <= j < i ==> code[j] == Alphabet[RollIndex(rolls[j])]
    {
      code := code + [Alphabet[RollIndex(rolls[i])]];
      i := i + 1;
    }
  }

  /** One entry of the built-in question bank. */
  datatype Prompt = Prompt(q: string, a: string)

  /** One column of the built-in question bank. */
  datatype Topic = Topic(title: string, questions: seq<Prompt>)

  const Bank: seq<Topic> := [
    Topic("CYBER SPACE", [
      Prompt("This planet is known as the Red Planet.", "Mars"),
      Prompt("The closest star to Earth.", "The Sun"),
      Prompt("Name of the galaxy we reside in.", "Milky Way"),
      Prompt("First human to travel into space.", "Yuri Gagarin"),
      Prompt("This black hole lies at the center of our galaxy.", "Sagittarius A*")
    ]),
    Topic("RETRO TECH", [
      Prompt("The company that released the Walkman in 1979.", "Sony"),
      Prompt("Standard floppy disk storage capacity.", "1.44 MB"),
      Prompt("Predecessor to the internet.", "ARPANET"),
      Prompt("The first popular web browser.", "Mosaic"),
      Prompt("Year the first iPhone was released.", "2007")
    ]),
    Topic("NETRUNNER LORE", [
      Prompt("A glitch in the system.", "Bug"),
      Prompt("Protocol for secure communication.", "HTTPS"),
      Prompt("Binary representation of decimal 2.", "10"),
      Prompt("Language used to style web pages.", "CSS"),
      Prompt("The brain of the computer.", "CPU")
    ])
  ]

  /** `clue-${catIndex}-${clueIndex}` */
  function ClueId(cat: nat, clue: nat): string {
    "clue-" + NatToString(cat) + "-" + NatToString(clue)
  }

  /** `cat-${catIndex}-${Date.now()}` */
  function CategoryId(cat: nat, stamp: nat): string {
    "cat-" + NatToString(cat) + "-" + NatToString(stamp)
  }

  /** Column `cat` of the default board, built from bank entry `cat`. */
  function BankColumn(cat: nat, stamp: nat): Category
    requires cat < |Bank|
  {
    var questions := Bank[cat].questions;
    Category(
      CategoryId(cat, stamp),
      Bank[cat].title,
      seq(|questions|, j requires 0 <= j < |questions| =>
        Clue(ClueId(cat, j), (j + 1) * 100, questions[j].q, questions[j].a)))
  }

  /** `getInitialBoard()`, with `Date.now()` passed in as `stamp`: three
      categories in bank order, five clues each, worth 100 to 500 from top to
      bottom, each carrying the bank's question and answer for its position. */
  function InitialBoard(stamp: nat): (board: Board)
    ensures |board| == 3
    ensures board[0].title == "CYBER SPACE"
    ensures board[1].title == "RETRO TECH"
    ensures board[2].title == "NETRUNNER LORE"
    ensures forall c :: 0 <= c < |board| ==> |board[c].clues| == 5
    ensures forall c :: 0 <= c < |board| ==> board[c].id == CategoryId(c, stamp)
    ensures forall c, j :: 0 <= c < |board| && 0 <= j < |board[c].clues| ==>
      var clue := board[c].clues[j];
      && clue.id == ClueId(c, j)
      && clue.value == (j + 1) * 100
      && clue.question == Bank[c].questions[j].q
      && clue.answer == Bank[c].questions[j].a
    ensures forall c, j, k :: 0 <= c < |board| && 0 <= j < k < |board[c].clues| ==>
      100 <= board[c].clues[j].value < board[c].clues[k].value <= 500
  {
    seq(|Bank|, c requires 0 <= c < |Bank| => BankColumn(c, stamp))
  }

  /** Two single-digit positions get the same clue id only if they are the same position. */
  lemma ClueIdInjective(c1: nat, j1: nat, c2: nat, j2: nat)
    requires c1 < 10 && j1 < 10 && c2 < 10 && j2 < 10
    ensures ClueId(c1, j1) == ClueId(c2, j2) ==> c1 == c2 && j1 == j2
  {
    assert ClueId(c1, j1)[5] == DigitChar(c1) && ClueId(c1, j1)[7] == DigitChar(j1);
    assert ClueId(c2, j2)[5] == DigitChar(c2) && ClueId(c2, j2)[7] == DigitChar(j2);
  }

  /** The fifteen clue ids of the default board are pairwise distinct. */
  lemma InitialClueIdsDistinct(stamp: nat)
    ensures forall c1, j1, c2, j2 ::
      0 <= c1 < 3 && 0 <= j1 < 5 && 0 <= c2 < 3 && 0 <= j2 < 5 && (c1, j1) != (c2, j2) ==>
      InitialBoard(stamp)[c1].clues[j1].id != InitialBoard(stamp)[c2].clues[j2].id
  {
    forall c1, j1, c2, j2 | 0 <= c1 < 3 && 0 <= j1 < 5 && 0 <= c2 < 3 && 0 <= j2 < 5 && (c1, j1) != (c2, j2)
      ensures InitialBoard(stamp)[c1].clues[j1].id != InitialBoard(stamp)[c2].clues[j2].id
    {
      ClueIdInjective(c1, j1, c2, j2);
    }
  }
}
