/**
 * The selection tracker of the letter grid. A drag gesture (or clicks) builds
 * an ordered list of distinct cells; on release the letters under those cells
 * are joined and upper-cased, and the word scores 10 points if it is one of the
 * placed words and was not found before. A pointer-id guard decides which
 * pointer events count.
 *
 * The component's React state (`selection`, the pointer-id ref) and the
 * parent's state it updates through setters (`foundWords`, `score`) are the
 * fields of class SelectionTracker; each setter call is a plain assignment.
 */
module LetterGrid {
  import opened Text

  datatype Cell = Cell(row: int, col: int)

  /** A possibly absent value: JavaScript's `null` for a cell or a pointer id. */
  datatype Option<T> = None | Some(value: T)

  /** Points added to the score for each newly found word. */
  const PointsPerWord: int := 10

  predicate InBounds(grid: Grid, cell: Cell) {
    0 <= cell.row < |grid| && 0 <= cell.col < |grid[cell.row]|
  }

  predicate AllInBounds(grid: Grid, cells: seq<Cell>) {
    forall k :: 0 <= k < |cells| ==> InBounds(grid, cells[k])
  }

  /** No element occurs twice. */
  predicate Distinct<T(==)>(s: seq<T>) {
    forall i, j :: 0 <= i < j < |s| ==> s[i] != s[j]
  }

  /** The strings of the selected cells, joined in selection order; as long as
    * those strings put together. */
  function Joined(grid: Grid, cells: seq<Cell>): (s: string)
    requires AllInBounds(grid, cells)
    ensures |s| == TotalLength(grid, cells)
  {
    if cells == [] then ""
    else
      var n := |cells| - 1;
      TotalLengthAppend(grid, cells[..n], cells[n]);
      assert cells[..n] + [cells[n]] == cells;
      Joined(grid, cells[..n]) + grid[cells[n].row][cells[n].col]
  }

  /** getSelectedWord: the joined letters of the selected cells, upper-cased.
    * The word is upper-case and as long as the selected cells' strings put together. */
  function SelectedWord(grid: Grid, cells: seq<Cell>): (w: string)
    requires AllInBounds(grid, cells)
    ensures IsUpper(w)
    ensures |w| == TotalLength(grid, cells)
  {
    UpperFixesUpper(Joined(grid, cells));
    Upper(Joined(grid, cells))
  }

  /** The sum of the lengths of the selected cells' strings. */
  function TotalLength(grid: Grid, cells: seq<Cell>): nat
    requires AllInBounds(grid, cells)
  {
    if cells == [] then 0 else |grid[cells[0].row][cells[0].col]| + TotalLength(grid, cells[1..])
  }

  /** Selecting one more cell appends that cell's upper-cased string to the word. */
  lemma SelectedWordAppend(grid: Grid, cells: seq<Cell>, cell: Cell)
    requires AllInBounds(grid, cells) && InBounds(grid, cell)
    ensures AllInBounds(grid, cells + [cell])
    ensures SelectedWord(grid, cells + [cell]) == SelectedWord(grid, cells) + Upper(grid[cell.row][cell.col])
  {
  }

  lemma {:induction false} TotalLengthAppend(grid: Grid, cells: seq<Cell>, cell: Cell)
    requires AllInBounds(grid, cells) && InBounds(grid, cell)
    ensures AllInBounds(grid, cells + [cell])
    ensures TotalLength(grid, cells + [cell]) == TotalLength(grid, cells) + |grid[cell.row][cell.col]|
  {
    if cells != [] {
      TotalLengthAppend(grid, cells[1..], cell);
      assert (cells + [cell])[1..] == cells[1..] + [cell];
    }
  }

  /** When every selected cell holds one character, the word has one letter per
    * cell: the upper-cased character of the k-th selected cell at position k. */
  lemma {:induction false} SelectedWordPerCell(grid: Grid, cells: seq<Cell>)
    requires AllInBounds(grid, cells)
    requires forall k :: 0 <= k < |cells| ==> |grid[cells[k].row][cells[k].col]| == 1
    ensures |SelectedWord(grid, cells)| == |cells|
    ensures forall k :: 0 <= k < |cells| ==>
      SelectedWord(grid, cells)[k] == UpperChar(grid[cells[k].row][cells[k].col][0])
  {
    if cells != [] {
      var n := |cells| - 1;
      SelectedWordPerCell(grid, cells[..n]);
      SelectedWordAppend(grid, cells[..n], cells[n]);
      assert cells[..n] + [cells[n]] == cells;
    }
  }

  /** pushCellIfNew's state updater: a missing cell, the last cell again, or
    * any cell already selected leaves the selection as it is; a new cell is
    * appended. */
  function PushCellIfNew(prev: seq<Cell>, cell: Option<Cell>): (next: seq<Cell>)
    ensures cell.None? ==> next == prev
    ensures cell.Some? && cell.value in prev ==> next == prev
    ensures cell.Some? && cell.value !in prev ==> next == prev + [cell.value]
    ensures Distinct(prev) ==> Distinct(next)
  {
    match cell
    case None => prev
    case Some(c) =>
      if |prev| > 0 && prev[|prev| - 1] == c then prev
      else if exists k :: 0 <= k < |prev| && prev[k] == c then prev
      else prev + [c]
  }

  /**
   * The grid component's state together with the parent state it updates.
   * `grid` and `placedWords` are the component's props.
   */
  class SelectionTracker {
    const grid: Grid
    const placedWords: seq<string>
    var selection: seq<Cell>
    var pointerId: Option<int>
    var foundWords: seq<string>
    var score: int

    /** The selection is in the grid and repeats no cell; the found words are
      * distinct placed words, and the score is 10 points per found word. */
    ghost predicate Valid()
      reads this
    {
      && AllInBounds(grid, selection)
      && Distinct(selection)
      && Distinct(foundWords)
      && (forall w :: w in foundWords ==> w in placedWords)
      && score == PointsPerWord * |foundWords|
    }

    /** A new game: nothing selected, no pointer down, nothing found, score 0. */
    constructor (grid: Grid, placedWords: seq<string>)
      ensures Valid()
      ensures this.grid == grid && this.placedWords == placedWords
      ensures selection == [] && pointerId == None && foundWords == [] && score == 0
    {
      this.grid := grid;
      this.placedWords := placedWords;
      selection := [];
      pointerId := None;
      foundWords := [];
      score := 0;
    }

    /** pushCellIfNew, for a cell that lies in the grid or for none. */
    method PushCell(cell: Option<Cell>)
      requires Valid()
      requires cell.Some? ==> InBounds(grid, cell.value)
      modifies this
      ensures Valid()
      ensures selection == PushCellIfNew(old(selection), cell)
      ensures pointerId == old(pointerId) && foundWords == old(foundWords) && score == old(score)
    {
      selection := PushCellIfNew(selection, cell);
    }

    /** finalizeSelection: an empty selection is left alone; otherwise the
      * selected word is recorded and scored if it is placed and not yet found,
      * and the selection is cleared either way. */
    method FinalizeSelection()
      requires Valid()
      modifies this
      ensures Valid()
      ensures pointerId == old(pointerId)
      ensures old(selection) == [] ==>
        selection == [] && foundWords == old(foundWords) && score == old(score)
      ensures old(selection) != [] ==>
        var w := SelectedWord(grid, old(selection));
        && selection == []
        && (w in placedWords && w !in old(foundWords) ==>
              foundWords == old(foundWords) + [w] && score == old(score) + 10)
        && (!(w in placedWords && w !in old(foundWords)) ==>
              foundWords == old(foundWords) && score == old(score))
    {
      if |selection| == 0 {
        return;
      }
      var word := SelectedWord(grid, selection);
      if word in placedWords && word !in foundWords {
        foundWords := foundWords + [word];
        score := score + PointsPerWord;
      }
      selection := [];
    }

    /** onPointerDown: takes the pointer, restarts the selection and pushes the
      * cell under the pointer, if any. */
    method PointerDown(id: int, cell: Option<Cell>)
      requires Valid()
      requires cell.Some? ==> InBounds(grid, cell.value)
      modifies this
      ensures Valid()
      ensures pointerId == Some(id)
      ensures selection == (if cell.Some? then [cell.value] else [])
      ensures |selection| <= 1
      ensures foundWords == old(foundWords) && score == old(score)
    {
      pointerId := Some(id);
      selection := [];
      PushCell(cell);
    }

    /** onPointerMove: for the tracked pointer, pushes the cell under it. */
    method PointerMove(id: int, cell: Option<Cell>)
      requires Valid()
      requires cell.Some? ==> InBounds(grid, cell.value)
      modifies this
      ensures Valid()
      ensures old(pointerId) != Some(id) ==>
        selection == old(selection) && pointerId == old(pointerId)
      ensures old(pointerId) == Some(id) ==>
        selection == PushCellIfNew(old(selection), cell) && pointerId == old(pointerId)
      ensures foundWords == old(foundWords) && score == old(score)
    {
      if pointerId != Some(id) {
        return;
      }
      PushCell(cell);
    }

    /** onPointerUp: for the tracked pointer, releases it and finalizes the selection. */
    method PointerUp(id: int)
      requires Valid()
      modifies this
      ensures Valid()
      ensures old(pointerId) != Some(id) ==>
        selection == old(selection) && pointerId == old(pointerId)
        && foundWords == old(foundWords) && score == old(score)
      ensures old(pointerId) == Some(id) ==>
        && pointerId == None
        && selection == []
        && (old(selection) == [] ==> foundWords == old(foundWords) && score == old(score))
        && (old(selection) != [] ==>
              var w := SelectedWord(grid, old(selection));
              if w in placedWords && w !in old(foundWords)
              then foundWords == old(foundWords) + [w] && score == old(score) + 10
              else foundWords == old(foundWords) && score == old(score))
    {
      if pointerId != Some(id) {
        return;
      }
      pointerId := None;
      FinalizeSelection();
    }

    /** onPointerCancel: for the tracked pointer, releases it and drops the
      * selection without scoring. */
    method PointerCancel(id: int)
      requires Valid()
      modifies this
      ensures Valid()
      ensures old(pointerId) != Some(id) ==>
        selection == old(selection) && pointerId == old(pointerId)
      ensures old(pointerId) == Some(id) ==> selection == [] && pointerId == None
      ensures foundWords == old(foundWords) && score == old(score)
    {
      if pointerId != Some(id) {
        return;
      }
      pointerId := None;
      selection := [];
    }

    /** onPointerLeave: whichever pointer is tracked, finalizes the selection
      * and releases the pointer; with no pointer tracked, does nothing. */
    method PointerLeave()
      requires Valid()
      modifies this
      ensures Valid()
      ensures old(pointerId) == None ==>
        selection == old(selection) && pointerId == None
        && foundWords == old(foundWords) && score == old(score)
      ensures old(pointerId) != None ==>
        && pointerId == None
        && selection == []
        && (old(selection) == [] ==> foundWords == old(foundWords) && score == old(score))
        && (old(selection) != [] ==>
              var w := SelectedWord(grid, old(selection));
              if w in placedWords && w !in old(foundWords)
              then foundWords == old(foundWords) + [w] && score == old(score) + 10
              else foundWords == old(foundWords) && score == old(score))
    {
      if pointerId != None {
        FinalizeSelection();
        pointerId := None;
      }
    }

    /** A click on cell (row, col) of the grid pushes it, whatever the pointer state. */
    method Click(row: int, col: int)
      requires Valid()
      requires InBounds(grid, Cell(row, col))
      modifies this
      ensures Valid()
      ensures selection == PushCellIfNew(old(selection), Some(Cell(row, col)))
      ensures pointerId == old(pointerId) && foundWords == old(foundWords) && score == old(score)
    {
      PushCell(Some(Cell(row, col)));
    }
  }
}
