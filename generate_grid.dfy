/**
 * The word-search grid generator: a size-by-size grid of strings starts out
 * empty (""), each shuffled word is tried at up to 50 random
 * (direction, row, column) positions and written in place at the first one
 * that fits, and every cell still empty at the end gets a letter A..Z.
 *
 * The randomness of the original is supplied as inputs: the shuffled word
 * order, the 50 attempts drawn for each word, and the letter drawn for each
 * empty cell. Everything else is deterministic and is modelled here.
 *
 * The grid is an `array2<string>` updated in place by the methods; the pure
 * functions over `Grid` (a sequence of rows) specify what those methods do.
 */
module GenerateGrid {
  import opened Text

  /** Each word gets at most this many placement attempts. */
  const MaxAttempts: nat := 50

  /** The letters the fill step draws from. */
  const Alphabet: string := "ABCDEFGHIJKLMNOPQRSTUVWXYZ"

  /** An index into Alphabet, i.e. a draw of `Math.floor(Math.random() * 26)`. */
  type LetterIndex = i: int | 0 <= i < 26

  /** H: left to right, V: top to bottom, D1: diagonal down-right, D2: diagonal down-left. */
  datatype Direction = H | V | D1 | D2

  /** One random draw of the placement loop: a direction and a start cell. */
  datatype Attempt = Attempt(dir: Direction, row: int, col: int)

  /** Row step of a direction: 0 for H, +1 for V, D1 and D2. */
  function RowOffset(d: Direction): int {
    if d == H then 0 else 1
  }

  /** Column step of a direction: +1 for H and D1, 0 for V, -1 for D2. */
  function ColOffset(d: Direction): int {
    match d
    case H => 1
    case V => 0
    case D1 => 1
    case D2 => -1
  }

  /** Row of the i-th letter of a word laid out from `a`, computed case by case
    * as the placement code does: the start row advanced by i row steps. */
  function PathRow(a: Attempt, i: int): (r: int)
    ensures r == a.row + i * RowOffset(a.dir)
  {
    match a.dir
    case H => a.row
    case V => a.row + i
    case D1 => a.row + i
    case D2 => a.row + i
  }

  /** Column of the i-th letter of a word laid out from `a`: the start column
    * advanced by i column steps. */
  function PathCol(a: Attempt, i: int): (c: int)
    ensures c == a.col + i * ColOffset(a.dir)
  {
    match a.dir
    case H => a.col + i
    case V => a.col
    case D1 => a.col + i
    case D2 => a.col - i
  }

  /** The only step along the path of `a` that can land on (r, c). */
  function PathIndex(a: Attempt, r: int, c: int): (i: int)
    ensures forall j :: PathRow(a, j) == r && PathCol(a, j) == c ==> j == i
  {
    if a.dir == H then c - a.col else r - a.row
  }

  /** (r, c) is the cell of one of the first n letters laid out from `a`. */
  predicate OnPath(n: int, a: Attempt, r: int, c: int) {
    var i := PathIndex(a, r, c);
    0 <= i < n && PathRow(a, i) == r && PathCol(a, i) == c
  }

  predicate InGrid(size: int, r: int, c: int) {
    0 <= r < size && 0 <= c < size
  }

  /** Every row is as long as there are rows. */
  predicate IsSquare(g: Grid) {
    forall r :: 0 <= r < |g| ==> |g[r]| == |g|
  }

  /** The grid the generator starts from: size rows of size empty strings. */
  function EmptyGrid(size: nat): (g: Grid)
    ensures |g| == size && IsSquare(g)
    ensures forall r, c :: InGrid(size, r, c) ==> g[r][c] == ""
  {
    seq(size, _ => seq(size, _ => ""))
  }

  /** All n steps of the path from `a` lie inside a size-by-size grid. */
  predicate PathInGrid(size: int, n: int, a: Attempt) {
    forall i :: 0 <= i < n ==> InGrid(size, PathRow(a, i), PathCol(a, i))
  }

  /** Letter i of `word` may go on its path cell: the cell is inside the
    * grid and is empty or already holds that very letter. */
  predicate LetterFits(g: Grid, word: string, a: Attempt, i: int)
    requires IsSquare(g) && 0 <= i < |word|
  {
    var r, c := PathRow(a, i), PathCol(a, i);
    InGrid(|g|, r, c) && (g[r][c] == "" || g[r][c] == [word[i]])
  }

  /** The placement rule: every letter of `word` fits along the path of `a`.
    * An accepted placement lies wholly inside the grid; on cells that are all
    * empty, lying inside the grid is enough. */
  predicate Fits(g: Grid, word: string, a: Attempt): (ok: bool)
    requires IsSquare(g)
    ensures ok ==> PathInGrid(|g|, |word|, a)
    ensures PathInGrid(|g|, |word|, a) && (forall r, c :: InGrid(|g|, r, c) ==> g[r][c] == "") ==> ok
  {
    var ok := forall i :: 0 <= i < |word| ==> LetterFits(g, word, a, i);
    assert ok ==> PathInGrid(|g|, |word|, a) by {
      if ok {
        forall i | 0 <= i < |word| ensures InGrid(|g|, PathRow(a, i), PathCol(a, i)) {
          assert LetterFits(g, word, a, i);
        }
      }
    }
    ok
  }

  /** `word` can be read along the path of `a`, one letter per cell. */
  predicate Spelled(g: Grid, word: string, a: Attempt)
    requires IsSquare(g)
  {
    forall i :: 0 <= i < |word| ==>
      InGrid(|g|, PathRow(a, i), PathCol(a, i)) && g[PathRow(a, i)][PathCol(a, i)] == [word[i]]
  }

  /** Every cell holds at most one character. */
  ghost predicate AtMostOneLetter(g: Grid)
    requires IsSquare(g)
  {
    forall r, c :: InGrid(|g|, r, c) ==> |g[r][c]| <= 1
  }

  /** The content of cell (r, c) once `word` is written along the path of `a`. */
  function Written(g: Grid, word: string, a: Attempt, r: int, c: int): string
    requires IsSquare(g) && InGrid(|g|, r, c)
  {
    if OnPath(|word|, a, r, c) then [word[PathIndex(a, r, c)]] else g[r][c]
  }

  /** The grid after `word` is written along the path of `a`. */
  function Place(g: Grid, word: string, a: Attempt): (g': Grid)
    requires IsSquare(g)
    ensures |g'| == |g| && IsSquare(g')
    ensures PathInGrid(|g|, |word|, a) ==> Spelled(g', word, a)
    ensures forall r, c :: InGrid(|g|, r, c) && !OnPath(|word|, a, r, c) ==> g'[r][c] == g[r][c]
  {
    seq(|g|, r requires 0 <= r < |g| =>
      seq(|g|, c requires 0 <= c < |g| => Written(g, word, a, r, c)))
  }

  /** A placement that fits never changes a cell that already holds something:
    * it only fills empty cells, or rewrites a letter with the same letter. */
  lemma PlaceKeepsOccupied(g: Grid, word: string, a: Attempt, r: int, c: int)
    requires IsSquare(g) && Fits(g, word, a)
    requires InGrid(|g|, r, c) && g[r][c] != ""
    ensures Place(g, word, a)[r][c] == g[r][c]
  {
    if OnPath(|word|, a, r, c) {
      assert LetterFits(g, word, a, PathIndex(a, r, c));
    }
  }

  /** A placement that fits leaves every word already spelled in the grid spelled. */
  lemma PlaceKeepsSpelled(g: Grid, word: string, a: Attempt, other: string, b: Attempt)
    requires IsSquare(g) && Fits(g, word, a) && Spelled(g, other, b)
    ensures Spelled(Place(g, word, a), other, b)
  {
    forall i | 0 <= i < |other|
      ensures Place(g, word, a)[PathRow(b, i)][PathCol(b, i)] == [other[i]]
    {
      PlaceKeepsOccupied(g, word, a, PathRow(b, i), PathCol(b, i));
    }
  }

  /** Writing a word keeps every cell at most one character long. */
  lemma PlaceKeepsOneLetter(g: Grid, word: string, a: Attempt)
    requires IsSquare(g) && AtMostOneLetter(g)
    ensures AtMostOneLetter(Place(g, word, a))
  {
  }

  /** The index of the first attempt at which `word` fits, or |attempts| if none does. */
  function FirstFit(g: Grid, word: string, attempts: seq<Attempt>): (k: nat)
    requires IsSquare(g)
    ensures k <= |attempts|
    ensures forall j :: 0 <= j < k ==> !Fits(g, word, attempts[j])
    ensures k < |attempts| ==> Fits(g, word, attempts[k])
  {
    if attempts == [] then 0
    else if Fits(g, word, attempts[0]) then 0
    else 1 + FirstFit(g, word, attempts[1..])
  }

  /** What the generator has built so far: the grid, the words placed on it
    * (upper-cased, in placement order) and, for each, the attempt it was placed at. */
  datatype Layout = Layout(grid: Grid, placedWords: seq<string>, paths: seq<Attempt>)

  /** One round of the outer loop: the upper-cased word is placed at the first
    * of its attempts that fits, or skipped if none does. */
  function Step(L: Layout, word: string, attempts: seq<Attempt>): (L': Layout)
    requires IsSquare(L.grid)
    ensures (L' == L) <==> (forall j :: 0 <= j < |attempts| ==> !Fits(L.grid, Upper(word), attempts[j]))
    ensures L' != L ==>
      && L'.placedWords == L.placedWords + [Upper(word)]
      && |L'.paths| == |L.paths| + 1 && L'.paths[..|L.paths|] == L.paths
      && L'.paths[|L.paths|] in attempts
      && Fits(L.grid, Upper(word), L'.paths[|L.paths|])
      && L'.grid == Place(L.grid, Upper(word), L'.paths[|L.paths|])
  {
    var w := Upper(word);
    var k := FirstFit(L.grid, w, attempts);
    if k < |attempts| then
      var L' := Layout(Place(L.grid, w, attempts[k]), L.placedWords + [w], L.paths + [attempts[k]]);
      assert L'.placedWords != L.placedWords;
      assert L'.paths[..|L.paths|] == L.paths;
      L'
    else L
  }

  /** The placement phase: the words, in order, each with its own attempts. */
  function PlaceAll(g: Grid, words: seq<string>, choices: seq<seq<Attempt>>): (L: Layout)
    requires IsSquare(g) && |choices| == |words|
    ensures |L.grid| == |g| && IsSquare(L.grid)
    ensures |L.placedWords| == |L.paths| <= |words|
    decreases |words|
  {
    if words == [] then Layout(g, [], [])
    else
      var n := |words| - 1;
      Step(PlaceAll(g, words[..n], choices[..n]), words[n], choices[n])
  }

  /** Every placed word of the layout is spelled along its recorded path. */
  predicate AllSpelled(L: Layout) {
    && IsSquare(L.grid)
    && |L.placedWords| == |L.paths|
    && forall k :: 0 <= k < |L.placedWords| ==> Spelled(L.grid, L.placedWords[k], L.paths[k])
  }

  /** The central invariant of the placement phase: every placed word can still
    * be read along the path it was placed on, since later placements only ever
    * write a letter over an empty cell or over the same letter. */
  lemma {:induction false} PlaceAllSpellsPlaced(g: Grid, words: seq<string>, choices: seq<seq<Attempt>>)
    requires IsSquare(g) && |choices| == |words|
    ensures AllSpelled(PlaceAll(g, words, choices))
  {
    if words != [] {
      var n := |words| - 1;
      var prev := PlaceAll(g, words[..n], choices[..n]);
      PlaceAllSpellsPlaced(g, words[..n], choices[..n]);
      var L := Step(prev, words[n], choices[n]);
      if L != prev {
        var a := L.paths[|prev.paths|];
        forall k | 0 <= k < |L.placedWords|
          ensures Spelled(L.grid, L.placedWords[k], L.paths[k])
        {
          if k < |prev.placedWords| {
            assert L.paths[k] == L.paths[..|prev.paths|][k] == prev.paths[k];
            assert L.placedWords[k] == prev.placedWords[k];
            PlaceKeepsSpelled(prev.grid, Upper(words[n]), a, prev.placedWords[k], prev.paths[k]);
          }
        }
      }
    }
  }

  /** Placement keeps every cell at most one character long. */
  lemma {:induction false} PlaceAllOneLetter(g: Grid, words: seq<string>, choices: seq<seq<Attempt>>)
    requires IsSquare(g) && |choices| == |words| && AtMostOneLetter(g)
    ensures AtMostOneLetter(PlaceAll(g, words, choices).grid)
  {
    if words != [] {
      var n := |words| - 1;
      var prev := PlaceAll(g, words[..n], choices[..n]);
      PlaceAllOneLetter(g, words[..n], choices[..n]);
      var L := Step(prev, words[n], choices[n]);
      if L != prev {
        PlaceKeepsOneLetter(prev.grid, Upper(words[n]), L.paths[|prev.paths|]);
      }
    }
  }

  /** xs can be obtained from ys by deleting elements (order is kept). */
  predicate IsSubsequence<T(==)>(xs: seq<T>, ys: seq<T>)
    decreases |ys|
  {
    if xs == [] then true
    else if ys == [] then false
    else if xs[|xs| - 1] == ys[|ys| - 1] && IsSubsequence(xs[..|xs| - 1], ys[..|ys| - 1]) then true
    else IsSubsequence(xs, ys[..|ys| - 1])
  }

  /** A subsequence is no longer than its sequence and draws its elements from it. */
  lemma {:induction false} SubsequenceBounds<T>(xs: seq<T>, ys: seq<T>)
    requires IsSubsequence(xs, ys)
    ensures |xs| <= |ys|
    ensures forall x :: x in xs ==> x in ys
    decreases |ys|
  {
    if xs != [] {
      var m, n := |xs| - 1, |ys| - 1;
      if xs[m] == ys[n] && IsSubsequence(xs[..m], ys[..n]) {
        SubsequenceBounds(xs[..m], ys[..n]);
        assert xs == xs[..m] + [xs[m]];
        assert ys == ys[..n] + [ys[n]];
      } else {
        SubsequenceBounds(xs, ys[..n]);
        assert ys == ys[..n] + [ys[n]];
      }
    }
  }

  /** Every word, upper-cased. */
  function Uppers(words: seq<string>): (us: seq<string>)
    ensures |us| == |words|
    ensures forall i :: 0 <= i < |words| ==> us[i] == Upper(words[i])
  {
    seq(|words|, i requires 0 <= i < |words| => Upper(words[i]))
  }

  /** The placed words are the upper-cased input words, in input order, each at
    * most once: those that found a position. */
  lemma {:induction false} PlaceAllPlacedFromWords(g: Grid, words: seq<string>, choices: seq<seq<Attempt>>)
    requires IsSquare(g) && |choices| == |words|
    ensures IsSubsequence(PlaceAll(g, words, choices).placedWords, Uppers(words))
  {
    var L := PlaceAll(g, words, choices);
    if words != [] {
      var n := |words| - 1;
      var prev := PlaceAll(g, words[..n], choices[..n]);
      PlaceAllPlacedFromWords(g, words[..n], choices[..n]);
      assert Uppers(words)[..n] == Uppers(words[..n]);
      if L == prev {
        SubsequenceExtend(prev.placedWords, Uppers(words[..n]), Upper(words[n]));
        assert Uppers(words[..n]) + [Upper(words[n])] == Uppers(words);
      } else {
        assert L.placedWords[..|L.placedWords| - 1] == prev.placedWords;
      }
    }
  }

  /** Appending to the longer sequence keeps a subsequence a subsequence. */
  lemma {:induction false} SubsequenceExtend<T>(xs: seq<T>, ys: seq<T>, y: T)
    requires IsSubsequence(xs, ys)
    ensures IsSubsequence(xs, ys + [y])
  {
  }

  /** The content of cell (r, c) after the fill step. */
  function FilledCell(g: Grid, pick: (int, int) -> LetterIndex, r: int, c: int): string
    requires IsSquare(g) && InGrid(|g|, r, c)
  {
    if g[r][c] == "" then [Alphabet[pick(r, c)]] else g[r][c]
  }

  /** The grid after the fill step: every empty cell gets the letter drawn for it. */
  function Filled(g: Grid, pick: (int, int) -> LetterIndex): (g': Grid)
    requires IsSquare(g)
    ensures |g'| == |g| && IsSquare(g')
    ensures forall r, c :: InGrid(|g|, r, c) ==> g'[r][c] != ""
    ensures forall r, c :: InGrid(|g|, r, c) && g[r][c] != "" ==> g'[r][c] == g[r][c]
    ensures forall r, c :: InGrid(|g|, r, c) && g[r][c] == "" ==>
      |g'[r][c]| == 1 && 'A' <= g'[r][c][0] <= 'Z'
  {
    seq(|g|, r requires 0 <= r < |g| =>
      seq(|g|, c requires 0 <= c < |g| => FilledCell(g, pick, r, c)))
  }

  /** The fill step keeps every spelled word spelled. */
  lemma FilledKeepsSpelled(g: Grid, pick: (int, int) -> LetterIndex, word: string, a: Attempt)
    requires IsSquare(g) && Spelled(g, word, a)
    ensures Spelled(Filled(g, pick), word, a)
  {
  }

  /** After the fill step on a grid of at most one letter per cell, every cell holds exactly one letter. */
  lemma FilledOneLetterEach(g: Grid, pick: (int, int) -> LetterIndex)
    requires IsSquare(g) && AtMostOneLetter(g)
    ensures forall r, c :: InGrid(|g|, r, c) ==> |Filled(g, pick)[r][c]| == 1
  {
  }

  /** The abstract value of an array grid: its rows as sequences. */
  ghost function Cells(grid: array2<string>): (g: Grid)
    reads grid
    ensures |g| == grid.Length0
    ensures forall r :: 0 <= r < |g| ==> |g[r]| == grid.Length1
    ensures forall r, c :: 0 <= r < grid.Length0 && 0 <= c < grid.Length1 ==> g[r][c] == grid[r, c]
  {
    seq(grid.Length0, r requires 0 <= r < grid.Length0 reads grid =>
      seq(grid.Length1, c requires 0 <= c < grid.Length1 reads grid => grid[r, c]))
  }

  /** Two square grids with the same cells are the same grid. */
  lemma GridExt(g1: Grid, g2: Grid)
    requires IsSquare(g1) && IsSquare(g2) && |g1| == |g2|
    requires forall r, c :: InGrid(|g1|, r, c) ==> g1[r][c] == g2[r][c]
    ensures g1 == g2
  {
    forall r | 0 <= r < |g1| ensures g1[r] == g2[r] {
      assert forall c :: 0 <= c < |g1| ==> g1[r][c] == g2[r][c];
    }
  }

  /** canPlaceWord: walks the path letter by letter and answers whether the
    * placement rule holds. */
  method CanPlaceWord(grid: array2<string>, word: string, a: Attempt) returns (ok: bool)
    requires grid.Length0 == grid.Length1
    ensures ok == Fits(Cells(grid), word, a)
  {
    var size := grid.Length0;
    ghost var g := Cells(grid);
    for i := 0 to |word|
      invariant forall j :: 0 <= j < i ==> LetterFits(g, word, a, j)
    {
      var r, c := a.row, a.col;
      match a.dir {
        case H => c := c + i;
        case V => r := r + i;
        case D1 => r, c := r + i, c + i;
        case D2 => r, c := r + i, c - i;
      }
      if r < 0 || c < 0 || r >= size || c >= size {
        assert !LetterFits(g, word, a, i);
        return false;
      }
      if grid[r, c] != "" && grid[r, c] != [word[i]] {
        assert !LetterFits(g, word, a, i);
        return false;
      }
    }
    return true;
  }

  /** placeWord: writes the letters of `word` along the path of `a`. */
  method PlaceWord(grid: array2<string>, word: string, a: Attempt)
    requires grid.Length0 == grid.Length1
    requires PathInGrid(grid.Length0, |word|, a)
    modifies grid
    ensures Cells(grid) == Place(old(Cells(grid)), word, a)
  {
    ghost var g := Cells(grid);
    var n := grid.Length0;
    for i := 0 to |word|
      invariant forall r, c :: InGrid(n, r, c) ==> grid[r, c] == Written(g, word[..i], a, r, c)
    {
      assert InGrid(n, PathRow(a, i), PathCol(a, i));
      match a.dir {
        case H => grid[a.row, a.col + i] := [word[i]];
        case V => grid[a.row + i, a.col] := [word[i]];
        case D1 => grid[a.row + i, a.col + i] := [word[i]];
        case D2 => grid[a.row + i, a.col - i] := [word[i]];
      }
    }
    assert word[..|word|] == word;
    GridExt(Cells(grid), Place(g, word, a));
  }

  /** The fill loops: every empty cell gets the letter drawn for it. */
  method FillEmpty(grid: array2<string>, pick: (int, int) -> LetterIndex)
    requires grid.Length0 == grid.Length1
    modifies grid
    ensures Cells(grid) == Filled(old(Cells(grid)), pick)
  {
    ghost var g := Cells(grid);
    var size := grid.Length0;
    for r := 0 to size
      invariant forall i, j :: InGrid(size, i, j) ==>
        grid[i, j] == if i < r then FilledCell(g, pick, i, j) else g[i][j]
    {
      for c := 0 to size
        invariant forall i, j :: InGrid(size, i, j) ==>
          grid[i, j] == if i < r || (i == r && j < c) then FilledCell(g, pick, i, j) else g[i][j]
      {
        if grid[r, c] == "" {
          grid[r, c] := [Alphabet[pick(r, c)]];
        }
      }
    }
    GridExt(Cells(grid), Filled(g, pick));
  }

  /** generateGrid: places the words in the given (shuffled) order, each at the
    * first of its 50 attempts that fits, then fills the empty cells. Returns
    * the grid, the placed words and, as a proof aid, where each was placed. */
  method Generate(words: seq<string>, size: nat, shuffled: seq<string>,
                  choices: seq<seq<Attempt>>, pick: (int, int) -> LetterIndex)
    returns (grid: array2<string>, placedWords: seq<string>, ghost paths: seq<Attempt>)
    requires multiset(shuffled) == multiset(words)
    requires |choices| == |shuffled|
    requires forall k :: 0 <= k < |choices| ==> |choices[k]| == MaxAttempts
    ensures fresh(grid) && grid.Length0 == size && grid.Length1 == size
    ensures var L := PlaceAll(EmptyGrid(size), shuffled, choices);
      placedWords == L.placedWords && paths == L.paths && Cells(grid) == Filled(L.grid, pick)
    ensures forall r, c :: InGrid(size, r, c) ==> |grid[r, c]| == 1
    ensures |placedWords| == |paths|
    ensures forall k :: 0 <= k < |placedWords| ==> Spelled(Cells(grid), placedWords[k], paths[k])
    ensures |placedWords| <= |words|
    ensures forall w :: w in placedWords ==> w in Uppers(words)
  {
    grid := new string[size, size]((r, c) => "");
    placedWords, paths := [], [];
    ghost var g0 := EmptyGrid(size);
    GridExt(Cells(grid), g0);
    for k := 0 to |shuffled|
      invariant grid.Length0 == size && grid.Length1 == size
      invariant Layout(Cells(grid), placedWords, paths) == PlaceAll(g0, shuffled[..k], choices[..k])
    {
      assert shuffled[..k + 1][..k] == shuffled[..k];
      assert choices[..k + 1][..k] == choices[..k];
      ghost var before := Layout(Cells(grid), placedWords, paths);
      var word := shuffled[k];
      var w := Upper(word);
      for attempts := 0 to MaxAttempts
        invariant Layout(Cells(grid), placedWords, paths) == before
        invariant forall j :: 0 <= j < attempts ==> !Fits(before.grid, w, choices[k][j])
      {
        var a := choices[k][attempts];
        var fits := CanPlaceWord(grid, w, a);
        if fits {
          PlaceWord(grid, w, a);
          placedWords := placedWords + [w];
          paths := paths + [a];
          assert FirstFit(before.grid, w, choices[k]) == attempts by {
            FirstFitIsFirst(before.grid, w, choices[k], attempts);
          }
          break;
        }
      }
    }
    assert shuffled[..|shuffled|] == shuffled && choices[..|choices|] == choices;
    ghost var L := PlaceAll(g0, shuffled, choices);
    PlaceAllSpellsPlaced(g0, shuffled, choices);
    PlaceAllOneLetter(g0, shuffled, choices);
    PlaceAllPlacedFromWords(g0, shuffled, choices);
    SubsequenceBounds(placedWords, Uppers(shuffled));
    FillEmpty(grid, pick);
    FilledOneLetterEach(L.grid, pick);
    forall k | 0 <= k < |placedWords| ensures Spelled(Cells(grid), placedWords[k], paths[k]) {
      FilledKeepsSpelled(L.grid, pick, placedWords[k], paths[k]);
    }
    forall w | w in placedWords ensures w in Uppers(words) {
      var i :| 0 <= i < |shuffled| && w == Uppers(shuffled)[i];
      assert shuffled[i] in multiset(words);
      var j :| 0 <= j < |words| && words[j] == shuffled[i];
      assert Uppers(words)[j] == w;
    }
    assert |shuffled| == |words| by {
      assert |multiset(shuffled)| == |multiset(words)|;
    }
  }

  /** FirstFit picks an attempt that fits when every earlier one does not. */
  lemma {:induction false} FirstFitIsFirst(g: Grid, word: string, attempts: seq<Attempt>, k: nat)
    requires IsSquare(g) && k < |attempts| && Fits(g, word, attempts[k])
    requires forall j :: 0 <= j < k ==> !Fits(g, word, attempts[j])
    ensures FirstFit(g, word, attempts) == k
  {
  }
}
