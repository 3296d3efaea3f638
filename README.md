# Word-search game core, modelled in Dafny

This project models the logic of a browser word-search puzzle. It covers three parts:

- **The grid generator** (`GenerateGrid`, from `src/lib/generateGrid.ts`). It starts from a
  size-by-size grid of empty strings. It tries each shuffled, upper-cased word at up to 50 random
  (direction, row, column) attempts. The four directions are H = (0,+1), V = (+1,0),
  D1 = (+1,+1) and D2 = (+1,−1). A word is written in place at the first attempt where every path
  cell is inside the grid and is empty or already holds the same letter. At the end, every cell
  that is still empty gets a letter from A to Z.
  The grid is an `array2<string>`. `CanPlaceWord` reads it, and `PlaceWord`, `FillEmpty` and
  `Generate` write it cell by cell. Each method is proved equal to a pure function over
  the grid's rows (`Fits`, `Place`, `Filled`, `PlaceAll`), and the game's guarantees are proved
  as lemmas about those functions.
- **The selection tracker** (`LetterGrid`, from `src/components/LetterGrid.tsx`). A drag gesture
  or clicks build a list of distinct cells. On release, the letters under those cells are joined
  and upper-cased. The word scores 10 points if it is a placed word that has not been found yet.
  A pointer id decides which pointer events count. Class `SelectionTracker` holds the
  component's state (`selection`, the pointer id) and the parent state it updates through
  setters (`foundWords`, `score`). Each setter call is modelled as a plain assignment.
- **The rank** (`GameOverModal`, from `src/components/GameOverModal.tsx`). This maps the final
  score to Bronze, Silver, Gold or Platinum.

`Text` holds the grid type and ASCII upper-casing. `Findable` connects the generator and the
tracker. It proves that every placed word in a generated grid can be found in the game's sense.
A pointer-down on the first cell of the word's path, a move over each further cell and a
pointer-up leave the word in `foundWords`.

Randomness is passed in as inputs:
- the shuffled word order, which can be any reordering of the words;
- the 50 attempts drawn for each word, which can be any attempts;
- the letter index in 0..25 drawn for each empty cell, which can be any index.

## Model

| member | source | states |
|---|---|---|
| `Text.Upper` | src/lib/generateGrid.ts:24 | `toUpperCase` over ASCII keeps the length and upper-cases each character in place |
| `Text.UpperFixesUpper` | src/app/game/GamePageClient.tsx:40 | upper-casing gives an upper-case string; a string is unchanged by upper-casing exactly when it is already upper-case, so upper-casing the placed words again changes nothing |
| `GenerateGrid.EmptyGrid` | src/lib/generateGrid.ts:9 | the starting grid is square, size by size, and every cell is "" |
| `GenerateGrid.PathRow` | src/lib/generateGrid.ts:48-52 | the row of step i is the start row plus i times the direction's row offset (0 for H, +1 for V, D1 and D2) |
| `GenerateGrid.PathCol` | src/lib/generateGrid.ts:48-52 | the column of step i is the start column plus i times the direction's column offset (+1 for H and D1, 0 for V, −1 for D2) |
| `GenerateGrid.Fits` | src/lib/generateGrid.ts:54-55 | an accepted placement has every step i < \|word\| of its path inside 0..size-1, so any step outside makes the rule fail; on a grid of empty cells, being inside is enough |
| `GenerateGrid.CanPlaceWord` | src/lib/generateGrid.ts:45-58 | the loop answers true exactly when every letter fits: its path cell is in bounds and is empty or holds the same letter (occupied cells holding the same letter are shared) |
| `GenerateGrid.Place` | src/lib/generateGrid.ts:61-68 | after the write, the word is spelled along its path when the path lies inside the grid; every cell off the path is unchanged |
| `GenerateGrid.PlaceWord` | src/lib/generateGrid.ts:61-67 | the array after the loop equals `Place` applied to the array before it |
| `GenerateGrid.PlaceKeepsOccupied` | src/lib/generateGrid.ts:55-67 | a placement that fits never changes a non-empty cell |
| `GenerateGrid.PlaceKeepsSpelled` | src/lib/generateGrid.ts:16-30 | a placement that fits leaves every word already spelled in the grid still spelled |
| `GenerateGrid.PlaceKeepsOneLetter` | src/lib/generateGrid.ts:61-67 | writing a word keeps every cell at most one character long |
| `GenerateGrid.FirstFit` | src/lib/generateGrid.ts:19-30 | the attempt chosen is the first one that fits, and every earlier attempt does not fit; if no attempt fits, the result is the number of attempts |
| `GenerateGrid.FirstFitIsFirst` | src/lib/generateGrid.ts:19-30 | if attempt k fits and no earlier attempt does, the search stops at k |
| `GenerateGrid.Step` | src/lib/generateGrid.ts:16-30 | a word is skipped, leaving everything unchanged, exactly when none of its attempts fits; otherwise its upper-cased form is pushed once and written at a fitting attempt |
| `GenerateGrid.PlaceAll` | src/lib/generateGrid.ts:16-31 | the placement phase keeps the grid square and places at most one word per input word |
| `GenerateGrid.PlaceAllSpellsPlaced` | src/lib/generateGrid.ts:16-31 | invariant: every word in `placedWords` is still spelled along its recorded path after all later placements |
| `GenerateGrid.PlaceAllOneLetter` | src/lib/generateGrid.ts:16-31 | the placement phase keeps every cell at most one character long |
| `GenerateGrid.PlaceAllPlacedFromWords` | src/lib/generateGrid.ts:16-26 | `placedWords` is a subsequence of the upper-cased input words: input order is kept and each input position contributes at most one entry |
| `GenerateGrid.SubsequenceBounds` | src/lib/generateGrid.ts:26 | a subsequence is no longer than its sequence and takes its elements from it, so \|placedWords\| ≤ \|words\| |
| `GenerateGrid.Filled` | src/lib/generateGrid.ts:34-39 | after the fill every cell is non-empty; cells that held something are unchanged; cells that were empty hold one letter from A to Z |
| `GenerateGrid.FillEmpty` | src/lib/generateGrid.ts:35-39 | the nested loops leave the array equal to `Filled` of the array before them |
| `GenerateGrid.FilledKeepsSpelled` | src/lib/generateGrid.ts:35-39 | the fill keeps every spelled word spelled |
| `GenerateGrid.FilledOneLetterEach` | src/lib/generateGrid.ts:34-39 | after the fill, every cell holds exactly one character |
| `GenerateGrid.Generate` | src/lib/generateGrid.ts:8-42 | returns a fresh size-by-size grid with one character in every cell; every placed word is spelled along its path in the final grid; \|placedWords\| ≤ \|words\|, and each placed word is an upper-cased input word |
| `LetterGrid.Joined` | src/components/LetterGrid.tsx:33 | the joined string is as long as the selected cells' strings put together |
| `LetterGrid.SelectedWord` | src/components/LetterGrid.tsx:31-35 | the selected word is upper-case, and its length is the sum of the selected cells' string lengths |
| `LetterGrid.SelectedWordAppend` | src/components/LetterGrid.tsx:31-35 | the word is built in selection order: one more cell appends that cell's upper-cased string |
| `LetterGrid.SelectedWordPerCell` | src/components/LetterGrid.tsx:31-35 | when each selected cell holds one character, letter k of the word is the upper-cased character of the k-th selected cell |
| `LetterGrid.PushCellIfNew` | src/components/LetterGrid.tsx:60-68 | a null cell leaves the selection unchanged; so does a cell already in it, last or not; a new cell is appended after the existing prefix; the selection stays duplicate-free |
| `LetterGrid.SelectionTracker.constructor` | src/components/LetterGrid.tsx:26-28 | a new game starts with an empty selection, no pointer, no found words and score 0 |
| `LetterGrid.SelectionTracker.PushCell` | src/components/LetterGrid.tsx:60-68 | the selection becomes `PushCellIfNew` of the old one; nothing else changes; the invariant holds |
| `LetterGrid.SelectionTracker.FinalizeSelection` | src/components/LetterGrid.tsx:70-80 | an empty selection changes nothing; otherwise a placed, not-yet-found word is appended to `foundWords` and adds exactly 10 to `score`, any other word changes neither, and the selection is cleared |
| `LetterGrid.SelectionTracker.PointerDown` | src/components/LetterGrid.tsx:97-104 | records the pointer id and restarts the selection with at most the one cell under the pointer |
| `LetterGrid.SelectionTracker.PointerMove` | src/components/LetterGrid.tsx:105-109 | another pointer's move changes nothing; the tracked pointer's move pushes the cell |
| `LetterGrid.SelectionTracker.PointerUp` | src/components/LetterGrid.tsx:110-115 | another pointer's release changes nothing; the tracked pointer's release clears the pointer and finalizes as above |
| `LetterGrid.SelectionTracker.PointerCancel` | src/components/LetterGrid.tsx:116-121 | another pointer's cancel changes nothing; the tracked pointer's cancel clears the pointer and the selection without scoring |
| `LetterGrid.SelectionTracker.PointerLeave` | src/components/LetterGrid.tsx:122-127 | with no pointer tracked, nothing changes; otherwise the selection is finalized and the pointer cleared |
| `LetterGrid.SelectionTracker.Click` | src/components/LetterGrid.tsx:149-152 | a click pushes the clicked cell whatever the pointer state |
| `GameOverModal.GetRank` | src/components/GameOverModal.tsx:13-18 | score ≥ 80 gives Platinum, 50 ≤ score < 80 Gold, 30 ≤ score < 50 Silver, score < 30 Bronze, each in both directions |
| `GameOverModal.Label` | src/components/GameOverModal.tsx:14-17 | a rank prints as one of the four strings "Bronze", "Silver", "Gold", "Platinum" |
| `GameOverModal.RankLabel` | src/components/GameOverModal.tsx:13-18 | the string `getRank` returns: "Platinum" exactly when score ≥ 80, "Gold" exactly when 50 ≤ score < 80, "Silver" exactly when 30 ≤ score < 50, "Bronze" exactly when score < 30 |
| `GameOverModal.RankMonotone` | src/components/GameOverModal.tsx:13-18 | a higher score never gives a lower rank in the order Bronze < Silver < Gold < Platinum |
| `GameOverModal.LabelInjective` | src/components/GameOverModal.tsx:14-17 | the four returned labels are distinct, so the label determines the rank |
| `Findable.PathCells` | src/lib/generateGrid.ts:49-52 | the cells of a word's path are its row/column offsets times i, and no cell repeats |
| `Findable.PushAllDistinct` | src/components/LetterGrid.tsx:60-68 | pushing distinct cells one after another from an empty selection selects exactly those cells, in order |
| `Findable.PathSelectsWord` | src/components/LetterGrid.tsx:31-35 | selecting the path of an upper-case word spelled in the grid reads back that word |
| `Findable.PlacedWordsUpper` | src/lib/generateGrid.ts:24-26 | every placed word is upper-case |
| `Findable.GeneratedWordsFindable` | src/lib/generateGrid.ts:16-41 | in a generated grid, dragging over the path of any placed word selects its distinct cells, and they read back exactly that word |
| `Findable.DragAndRelease` | src/components/LetterGrid.tsx:97-115 | pointer-down on the first of some distinct cells, moves over the rest and pointer-up record and score the word they read exactly when it is placed and not yet found; the selection and pointer are cleared |
| `Findable.FindPlacedWord` | src/components/LetterGrid.tsx:70-80 | in a game on a generated grid, dragging over the path of a non-empty placed word and releasing leaves it in `foundWords`, adding 10 points if it was new |

The class invariant `SelectionTracker.Valid` is kept by every method. It says that the selection
lies in the grid and has no repeated cell, that `foundWords` is duplicate-free and contained in
`placedWords`, and that `score` is 10 times the number of found words. So the score is 10 times
the number of finalizations that recorded a word.

## Left out

- Randomness: `Math.random` and the `sort`-based shuffle are replaced by inputs (any reordering
  of the words, any 50 attempts per word, any letter index per empty cell). The distribution is
  not modelled. Nor is the fact that the shuffle also reorders the caller's array in place.
- `coordsToCell` (src/components/LetterGrid.tsx:37-58) works on floating-point screen
  coordinates. Only its integer guarantee is kept: a cell passed to the tracker is either absent
  or inside the grid, which is a precondition of `PushCell`, `PointerDown`, `PointerMove` and
  `Click`.
- Pointer capture and `preventDefault` are browser effects and are not modelled.
- React scheduling is not modelled. Setter calls are applied at once and in order, so
  `finalizeSelection` sees the latest selection.
- The game pages wrap `setFoundWords` so that they also set the score from `words.length`
  (src/app/game/GamePageClient.tsx:92-97, src/app/game/page.tsx:95-98). That wrapper is not
  modelled; scoring is exactly what `finalizeSelection` does.
- The timer, routing, the word bank, the win/lose checks and the display-only components are not
  modelled. They contain no logic beyond display, scheduling and navigation.
- `Text.Upper`: upper-casing covers the ASCII letters only, not Unicode case mapping.
- `GenerateGrid.CanPlaceWord`: requires a square grid. The source's `canPlaceWord` uses the row
  count as the bound for columns as well, and it is only ever called on a square grid.
- `GenerateGrid.Generate`: requires exactly 50 supplied attempts per word. This mirrors the 50
  random draws the loop can make; only the attempts up to the first fitting one are used.
- A word that occurs twice in the input, or twice up to letter case, can be placed and reported
  twice, as the source does. Since `foundWords` stays duplicate-free, only one copy can ever be
  recorded, so `foundWords` can then never be as long as `placedWords`.
- An empty input word fits anywhere and is reported as placed, but no selection can find it,
  because finalizing an empty selection does nothing. The model keeps this behaviour as it is.
