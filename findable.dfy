/**
 * How the generator and the selection tracker fit together: every word the
 * generator reports as placed is found by selecting the cells of its path in
 * order, since those cells are distinct and their upper-cased letters spell
 * exactly the word.
 */
module Findable {
  import opened Text
  import G = GenerateGrid
  import L = LetterGrid

  /** The cells of the first n steps of the path of `a`, in order. */
  function PathCells(a: G.Attempt, n: nat): (cells: seq<L.Cell>)
    ensures |cells| == n
    ensures forall i :: 0 <= i < n ==> cells[i] == L.Cell(G.PathRow(a, i), G.PathCol(a, i))
    ensures L.Distinct(cells)
  {
    seq(n, i requires 0 <= i < n => L.Cell(G.PathRow(a, i), G.PathCol(a, i)))
  }

  /** The selection left by pushing each of `cells` in turn, starting from `prev`. */
  function PushAll(prev: seq<L.Cell>, cells: seq<L.Cell>): seq<L.Cell>
    decreases |cells|
  {
    if cells == [] then prev
    else L.PushCellIfNew(PushAll(prev, cells[..|cells| - 1]), L.Some(cells[|cells| - 1]))
  }

  /** Dragging over distinct cells one after the other selects exactly those cells, in order. */
  lemma {:induction false} PushAllDistinct(cells: seq<L.Cell>)
    requires L.Distinct(cells)
    ensures PushAll([], cells) == cells
  {
    if cells != [] {
      var n := |cells| - 1;
      PushAllDistinct(cells[..n]);
      assert cells[n] !in cells[..n];
      assert cells[..n] + [cells[n]] == cells;
    }
  }

  /** Selecting the path of a word spelled in the grid reads back the word,
    * provided the word is upper-case (as every placed word is). */
  lemma PathSelectsWord(g: Grid, w: string, a: G.Attempt)
    requires G.IsSquare(g) && G.Spelled(g, w, a) && IsUpper(w)
    ensures L.AllInBounds(g, PathCells(a, |w|))
    ensures L.SelectedWord(g, PathCells(a, |w|)) == w
  {
    var cells := PathCells(a, |w|);
    assert forall k :: 0 <= k < |cells| ==> g[cells[k].row][cells[k].col] == [w[k]];
    L.SelectedWordPerCell(g, cells);
  }

  /** Every placed word of a generated grid is upper-case. */
  lemma PlacedWordsUpper(g: Grid, words: seq<string>, choices: seq<seq<G.Attempt>>)
    requires G.IsSquare(g) && |choices| == |words|
    ensures forall w :: w in G.PlaceAll(g, words, choices).placedWords ==> IsUpper(w)
  {
  }

  /** End to end: in the grid the generator returns, selecting the path of the
    * k-th placed word yields exactly that word, so the word can be found. */
  lemma GeneratedWordsFindable(size: nat, words: seq<string>, choices: seq<seq<G.Attempt>>,
                               pick: (int, int) -> G.LetterIndex, k: nat)
    requires |choices| == |words|
    requires k < |G.PlaceAll(G.EmptyGrid(size), words, choices).placedWords|
    ensures var lay := G.PlaceAll(G.EmptyGrid(size), words, choices);
      var final := G.Filled(lay.grid, pick);
      var cells := PathCells(lay.paths[k], |lay.placedWords[k]|);
      && L.Distinct(cells)
      && PushAll([], cells) == cells
      && L.AllInBounds(final, cells)
      && L.SelectedWord(final, cells) == lay.placedWords[k]
  {
    var lay := G.PlaceAll(G.EmptyGrid(size), words, choices);
    var final := G.Filled(lay.grid, pick);
    G.PlaceAllSpellsPlaced(G.EmptyGrid(size), words, choices);
    G.FilledKeepsSpelled(lay.grid, pick, lay.placedWords[k], lay.paths[k]);
    PlacedWordsUpper(G.EmptyGrid(size), words, choices);
    PathSelectsWord(final, lay.placedWords[k], lay.paths[k]);
    PushAllDistinct(PathCells(lay.paths[k], |lay.placedWords[k]|));
  }

  /** A drag over `cells` followed by a release: pointer-down on the first
    * cell, a move over each further cell, pointer-up. The word read from the
    * cells is recorded and scored exactly when it is placed and not yet found. */
  method DragAndRelease(t: L.SelectionTracker, id: int, cells: seq<L.Cell>)
    requires t.Valid()
    requires cells != [] && L.Distinct(cells) && L.AllInBounds(t.grid, cells)
    modifies t
    ensures t.Valid()
    ensures t.selection == [] && t.pointerId == L.None
    ensures var w := L.SelectedWord(t.grid, cells);
      if w in t.placedWords && w !in old(t.foundWords)
      then t.foundWords == old(t.foundWords) + [w] && t.score == old(t.score) + 10
      else t.foundWords == old(t.foundWords) && t.score == old(t.score)
  {
    t.PointerDown(id, L.Some(cells[0]));
    for i := 1 to |cells|
      invariant t.Valid() && t.pointerId == L.Some(id)
      invariant t.selection == cells[..i]
      invariant t.foundWords == old(t.foundWords) && t.score == old(t.score)
    {
      assert cells[i] !in cells[..i];
      t.PointerMove(id, L.Some(cells[i]));
      assert cells[..i] + [cells[i]] == cells[..i + 1];
    }
    assert cells[..|cells|] == cells;
    t.PointerUp(id);
  }

  /** In a game on a generated grid, dragging over the path of the k-th placed
    * word and releasing leaves that word among the found words. */
  method FindPlacedWord(t: L.SelectionTracker, id: int, size: nat, words: seq<string>,
                        choices: seq<seq<G.Attempt>>, pick: (int, int) -> G.LetterIndex, k: nat)
    requires |choices| == |words|
    requires t.Valid()
    requires t.grid == G.Filled(G.PlaceAll(G.EmptyGrid(size), words, choices).grid, pick)
    requires t.placedWords == G.PlaceAll(G.EmptyGrid(size), words, choices).placedWords
    requires k < |t.placedWords| && |t.placedWords[k]| > 0
    modifies t
    ensures t.Valid()
    ensures t.placedWords[k] in t.foundWords
    ensures t.placedWords[k] !in old(t.foundWords) ==>
      t.foundWords == old(t.foundWords) + [t.placedWords[k]] && t.score == old(t.score) + 10
  {
    var lay := G.PlaceAll(G.EmptyGrid(size), words, choices);
    GeneratedWordsFindable(size, words, choices, pick, k);
    DragAndRelease(t, id, PathCells(lay.paths[k], |lay.placedWords[k]|));
  }
}
