# Advent of Code 2024 solutions, days 1, 2, 4, 5, 6 and 7, in Dafny

This project models the puzzle solvers of a Rust Advent of Code 2024
repository. For each day the model reads the same input bytes as the
solver and takes the same steps, and it states the result against a plain
reference definition of the puzzle's answer. Where the solver as written
departs from that answer, the model takes the corrected step instead and
keeps the step as written beside it, with a lemma that shows the
difference (see "## Findings"). The corrected members are `Day2.Part1`,
`Day2.Part2`, `Day2.DecLevel`, `Day5Table.Size`, `Day6.Rows`, `Day6.Step`,
`Day6.Advance`, `Day6.ParseInput` and `Day6.GetVisitedCells`, and the
members built on them: `Day2.DecrementLevels`, `Day6.Trial`, `Day6.Part1`
and `Day6.Part2`. Everything else follows the solver's steps.

- **Day 2, report safety** (`day2_parse.dfy`, `day2.dfy`). This is the
  largest part.
  - `parse_input` lays every report out in its own eight-byte slot of a
    byte buffer. It also builds a table of how many readings each report
    has.
  - The chunk evaluator reads 64 bytes, that is eight reports, at a time.
    For each report it works out the deltas between neighbouring readings
    and masks them to the report's own readings. It gives one verdict bit
    per report.
  - Part 1 counts the verdict bits.
  - Part 2 counts the reports that become safe once one reading is
    removed. It takes eight splice passes over the buffer and ORs the
    verdict words of all the passes.
  - In the model, SIMD lanes are sequences and bitmasks are sequences of
    booleans. The `u64x4` repacking is modelled as little-endian blocks of
    32 bytes.
- **Day 1, list comparison** (`day1.dfy`). The parser reads fixed-width
  14-byte records. Part 1 is the distance between the sorted columns.
  Part 2 is the similarity score, computed by popping two lists sorted in
  descending order.
- **Day 4, word search** (`day4.dfy`). The grid is stored row-major, and
  its stride includes the newline. Part 1 makes four window scans for
  `XMAS`. Part 2 counts the `MAS` crosses.
- **Day 5, page ordering** (`day5_table.dfy`, `day5.dfy`).
  - The `Orderings` table is a class over an array.
  - `from_str` does three things:
    - it searches for the blank line that splits the two sections;
    - it enters the rules, ten per 64-byte chunk and then one by one;
    - it buffers the updates into `([u8; 23], u8)` records.
  - `is_update_valid` checks an update against the table. Part 1 sums the
    middle pages of the valid updates.
- **Day 6, guard walk** (`day6.dfy`).
  - The parser builds a two-dimensional grid, held as an `array2`.
  - A step rule moves the guard or turns it right.
  - The walk marks every cell the guard visits, and part 1 counts them.
  - Part 2 tries a wall on each visited cell. Each trial detects a loop
    by a repeated (cell, direction) state.
- **Day 7, operator search** (`day7_lines.dfy`, `day7.dfy`).
  - A line reader has two paths. The SIMD path reads 64-byte chunks. The
    fallback path splits the rest of the text on spaces.
  - The odometer `Ops::next` enumerates the operator assignments.
  - A prefix cache recomputes only the positions that the odometer
    invalidated.
  - Part 1 tries `+` and `*`. Part 2 also tries concatenation.

The reference definitions are these:
- `Day2.CountSafe`, the number of safe reports, or of reports that are
  safe after one deletion;
- `Day1.TotalDistance` and `Day1.Similarity`;
- `Day4.Occurrences` and `Day4.Crosses`;
- `Day5Table.Expected` and `Day5.MiddleSum`;
- `Day6.Run`, `Day6.Reached` and `Day6.Loops`;
- `Day7.Solvable` and `Day7.Total`.

Where an operation mutates state in the source, it is a method in the
model:
- a cursor loop;
- an array updated in place;
- a table written through `IndexMut`.

Each such method is proved against one of these specification functions.

## Model

| member | source | states |
|---|---|---|
| Bytes.DigitValue | src/day5.rs:189 | `b - b'0'` on `u8` is the digit's value, 0..9, for an ASCII digit |
| Day2Parse.OneDigit | src/day2.rs:189-193 | a one-byte token `f` reads as `f - '0'` when `f` is a digit; any token fits in `i8` |
| Day2Parse.TwoDigits | src/day2.rs:194-197 | a two-digit token reads as `10*(f-'0') + (s-'0')`, which is in 0..99 |
| Day2Parse.ReportsOfText | src/day2.rs:172-200 | tokenizing the text of any list of reports (readings 0..99, single spaces, newlines between lines) gives back exactly that list: the tokenizer inverts the text layout |
| Day2Parse.PadZeros | src/day2.rs:177-179 | padding to a multiple of `m` keeps the data as a prefix, adds fewer than `m` zeros and changes nothing when the length is already a multiple |
| Day2Parse.PushZerosTo | src/day2.rs:202-204 | the padding loop produces exactly the padded buffer |
| Day2Parse.ParseInput | src/day2.rs:165-213 | the cursor loop produces `data` equal to the slot layout of the reports (padded to the block size, plus one zero) and `num_levels` equal to each report's reading count, padded with zeros to `data.len()/8` entries |
| Day2Parse.PushLevelsTo | src/day2.rs:208-210 | `num_levels` is extended with zeros to one entry per eight-byte slot of `data` |
| Day2Parse.LevelTable | src/day2.rs:208-210 | entry `n` is the reading count of line `n`, and every entry past the last line is 0 |
| Day2Parse.Layout | src/day2.rs:202-206 | the buffer's length is 1 more than a multiple of the block, and its last byte is 0 |
| Day2Parse.SlotsLayout | src/day2.rs:174-179 | each report occupies `data[8n .. 8n+k]`, and the rest of its eight-byte slot is zero |
| Day2Parse.LayoutCells | src/day2.rs:172-206 | every byte of the final buffer is the reading of its slot, or zero |
| Day2Parse.ReportsI8 | src/day2.rs:190-195 | every token value is an `i8` |
| Day2.LineMask | src/day2.rs:128-133 | level `k` in 1..8 selects the low `k-1` delta bits; level 0 selects all eight |
| Day2.LineBitset | src/day2.rs:161-163 | byte `b` of the 64-bit lane mask holds lanes `8b..8b+7`, least significant bit first |
| Day2.SatSubKeepsVerdict | src/day2.rs:136-150 | for `i8` readings, the saturating delta has the sign of the true difference, and its saturating absolute value is at least 4 exactly when the true difference is |
| Day2.WindowBits | src/day2.rs:138-151 | the flat, up, down and over-threshold bits of a slot are exactly the comparisons of neighbouring readings |
| Day2.WindowBitsets | src/day2.rs:136-151 | the lane masks of a chunk, cut into bytes, are the per-slot bit vectors of each report's window |
| Day2.LineVerdictMeaning | src/day2.rs:140-157 | the verdict bit is set iff no masked delta is flat or at least 4 and rises and falls do not both occur |
| Day2.MaskedUp | src/day2.rs:141-142 | the masked up bits are non-zero iff the report's first `k` readings rise somewhere |
| Day2.MaskedDown | src/day2.rs:143-144 | the masked down bits are non-zero iff the first `k` readings fall somewhere |
| Day2.MaskedBounded | src/day2.rs:140-151 | no masked bit is flat or over threshold iff every step of the first `k` readings is 1..3 in size |
| Day2.SlotVerdictSafe | src/day2.rs:118-157 | for a report of `k` readings in 1..8, its verdict bit is set iff the report is safe (strictly monotone with steps of 1..3); a one-reading report is always safe |
| Day2.SlotVerdictLevelZero | src/day2.rs:128-157 | an all-zero slot with level 0 (a padding slot) is never safe, so padding adds nothing to the count |
| Day2.ChunkWordSlot | src/day2.rs:118-157 | bit `b` of chunk `c`'s word is the verdict of slot `8c+b` |
| Day2.GenNumSafeLinesMasks | src/day2.rs:105-159 | the evaluator emits `(data.len()-1)/64` words, and their bits, flattened, are the per-slot verdicts |
| Day2.CountOnes | src/day2.rs:74-77 | summing `count_ones` over the words gives the number of set verdict bits |
| Day2.PlainSlot | src/day2.rs:10-20 | the verdict of slot `n` of the parsed input is "line `n` exists and is a safe report" |
| Day2.PlainCount | src/day2.rs:10-20 | the set bits over all chunks number exactly the safe reports of the text |
| Day2.Part1 | src/day2.rs:10-20 | part 1 returns the number of safe reports of the input |
| Day2.DecLevel | src/day2.rs:32 | a level of 2 or more drops by one; 0 and 1 are kept (see Findings) |
| Day2.DecrementLevels | src/day2.rs:26-33 | the levels of the evaluated chunks are decremented and the rest are unchanged |
| Day2.ToBlocks | src/day2.rs:82-95 | the bytes repacked into 32-byte words, byte `p` of word `q` being byte `32q+p` |
| Day2.FromBlocks | src/day2.rs:97-103 | the words unpacked back into bytes in the same order |
| Day2.BlendSpliced | src/day2.rs:47-59 | the masked blend of `data_readonly` and `data_shifted` is the spliced buffer, 32 bytes at a time |
| Day2.Splice | src/day2.rs:42-61 | pass `i` rebuilds the buffer so that each slot keeps its bytes below `min(i, level)` and shifts the rest left by one |
| Day2.SplicedWindow | src/day2.rs:47-57 | after pass `p`, slot `n` holds the original slot with byte `min(p, level)` removed, and its bytes are still `i8` |
| Day2.WindowDeletes | src/day2.rs:47-57 | that window, cut to `k-1` readings, is the report with reading `m` deleted |
| Day2.OrInto | src/day2.rs:66-70 | `all_masks[j] \|= mask` ORs the pass's words into the accumulated words and leaves the rest alone |
| Day2.PassSlot | src/day2.rs:42-71 | the verdict of slot `n` in pass `p` is "report `n` is safe without reading `min(p, k-1)`" |
| Day2.Pass | src/day2.rs:42-71 | after pass `i`, accumulated bit `n` says whether some pass up to `i` found slot `n` safe |
| Day2.AllPasses | src/day2.rs:42-72 | after the eight passes, the bits are the tolerant verdicts |
| Day2.PassesUpToExists | src/day2.rs:42-72 | the ORed bit after `i` passes is set iff one of the first `i` passes sets it |
| Day2.TolerantSlot | src/day2.rs:42-77 | the ORed bit of slot `n` is set iff report `n` exists and is safe after at most one deletion |
| Day2.TolerantCount | src/day2.rs:22-80 | the ORed words count exactly the tolerantly safe reports |
| Day2.Part2 | src/day2.rs:22-80 | part 2 returns the number of reports that are safe, or safe after one deletion |
| Day2.TolerantCountsMore | src/day2.rs:10-80 | part 2's count is never below part 1's |
| Day2.CountSafeAppend | src/day2.rs:10-80 | the count over two lists of reports is the sum of their counts |
| Day2.CountSafePermutation | src/day2.rs:10-80 | reordering the report lines changes neither part's count, since each line is judged on its own |
| Day2.OneDeletionReports | src/day2.rs:10-80 | the text `1 3 2 4 5` / `8 6 4 4 1` reads back as those two reports; part 1 counts neither, and part 2 counts both, since each becomes safe with one reading removed |
| Day2.PaddingAsWrittenSkipsReport | src/day2.rs:202-206 | as written, "7 6 4 2 1" is padded to 33 bytes, which is zero chunks, so its safe report is never counted |
| Day2.DecrementAsWrittenDropsOneReading | src/day2.rs:26-33 | five lines of "5" pad, as written, to one whole chunk, the same buffer as the corrected padding, so part 1 counts all five; with the decrement as written every pass of part 2 rejects each of them, although each is safe |
| Day2.LevelZeroFails | src/day2.rs:26-33 | a slot of at most one reading whose level has been decremented to 0 fails every pass |
| Day1.Parse5DigitBase10 | src/day1.rs:85-91 | the loop computes the decimal value of the five bytes, which is at most 99999 for digits |
| Day1.DecimalOfDigits | src/day1.rs:85-91 | reading back the `k`-digit decimal text of `v < 10^k` gives `v` |
| Day1.RecordsLeft | src/day1.rs:66-80 | the cursor loop stops exactly after the last record: it runs on while a record starts inside the input, and that record's fields are in bounds |
| Day1.ParseInput | src/day1.rs:61-83 | the two lists are the left and right fields of the 14-byte records, in order and of equal length |
| Day1.RecordOfText | src/day1.rs:70-74 | record `i` of a text of records reads back as its two numbers |
| Day1.ColumnsOfText | src/day1.rs:61-83 | parsing the text of two columns of five-digit numbers gives back the two columns |
| Day1.SortAscending | src/day1.rs:8-9 | the result is sorted and a permutation of the input |
| Day1.SortDescending | src/day1.rs:20-21 | the result is sorted in descending order and a permutation of the input |
| Day1.AscendingUnique | src/day1.rs:8-9 | two sorted permutations of one list are equal, so the answer does not depend on which sort is used |
| Day1.TotalDistanceZero | src/day1.rs:10-14 | the pairwise distance sum is 0 iff the lists are equal |
| Day1.Part1 | src/day1.rs:5-15 | part 1 is the distance sum of the sorted columns, and it is 0 iff the columns are permutations of each other |
| Day1.SimSumPermutation | src/day1.rs:17-59 | the similarity sum does not depend on the order of the left list |
| Day1.PopThrough | src/day1.rs:35-52 | the inner loop pops exactly the values `<= n`, keeps the rest as a prefix of the list (the first greater value is pushed back), and counts the values equal to `n` |
| Day1.CountNext | src/day1.rs:33-54 | after the inner loop, `prev_count` is the number of occurrences of `n` in the right list |
| Day1.ScoreDescending | src/day1.rs:23-58 | popping from two lists sorted in descending order (with `prev_score` reused for repeats) gives the similarity score |
| Day1.Part2 | src/day1.rs:17-59 | part 2 is the sum over the left list of `n * count(right, n)` |
| Day4.LineEnd | src/day4.rs:88-94 | the index found is the first newline |
| Day4.ParseInput | src/day4.rs:85-97 | the buffer is the input plus a newline; the width is one past the first newline and the height is `(len+1)/width` |
| Day4.RowStartIsProduct | src/day4.rs:6 | the row offset is `y * width` |
| Day4.IdxInside | src/day4.rs:6 | `index(x, y)` of a cell inside the grid is inside the buffer |
| Day4.NewLineNeverMatches | src/day4.rs:10-18 | a window containing a newline never matches |
| Day4.ScanRows | src/day4.rs:15-18 | the horizontal scan counts the matching windows starting at `0..len-4` |
| Day4.ScanColumns | src/day4.rs:20-30 | the vertical scan counts the matching vertical windows |
| Day4.ScanDiagonals | src/day4.rs:32-42 | the first diagonal scan counts the matching down-right windows |
| Day4.ScanAntiDiagonals | src/day4.rs:44-53 | the second diagonal scan counts the matching down-left windows |
| Day4.Part1 | src/day4.rs:3-56 | part 1 is the sum of the four scans, every index in bounds |
| Day4.LinearFindsRows | src/day4.rs:15-18 | the linear scan over the buffer finds exactly the horizontal occurrences of the grid |
| Day4.ScansFindOccurrences | src/day4.rs:3-56 | on a grid of at least 3x3 letters, part 1's count is the number of occurrences of `XMAS` in the four directions |
| Day4.Part2 | src/day4.rs:58-83 | part 2 counts the cells with an `A` centre and `M`/`S` on both diagonals, every index in bounds |
| Day4.ScansFindCrosses | src/day4.rs:58-83 | on a grid of at least two rows, part 2's count is the number of `MAS` crosses |
| Day4.GridShape | src/day4.rs:85-97 | for a rectangular grid of `c` letters by `r` rows, the width is `c+1` and the height is `r` |
| Day4.GridReady | src/day4.rs:85-97 | a rectangular grid of at least 3x3 letters meets what both parts need in order not to panic |
| Day5Table.Offset | src/day5.rs:48-50 | `(a << 7) \| b` is `a*128 + b` |
| Day5Table.OffsetInjective | src/day5.rs:48-50 | distinct page pairs have distinct offsets |
| Day5Table.PagesInTable | src/day5.rs:46-50 | with one more entry than `SIZE`, every pair of pages 0..99 is in the table |
| Day5Table.OffsetAsWrittenOverflows | src/day5.rs:46-50 | as written, the pair (99, 99) has offset `SIZE`, one past the end |
| Day5Table.EmptyTable | src/day5.rs:53-57 | the default table holds `Equal` everywhere |
| Day5Table.Orderings.constructor | src/day5.rs:53-57 | a new table holds `Equal` for every pair |
| Day5Table.Orderings.Get | src/day5.rs:59-65 | indexing returns the entry of the pair |
| Day5Table.Orderings.Set | src/day5.rs:67-71 | a store through `IndexMut` writes the pair's entry and nothing else |
| Day5Table.WriteLookup | src/day5.rs:67-71 | after a write, only the written pair reads differently |
| Day5Table.EnterLookup | src/day5.rs:110-123 | a rule `a\|b` makes `(a,b)` `Less` and `(b,a)` `Greater`, and leaves every other pair unchanged |
| Day5Table.EnterAllMeaning | src/day5.rs:110-123 | with consistent rules, the filled table holds `Less` for a rule, `Greater` for a reversed rule and `Equal` otherwise |
| Day5Table.SelfRuleDependsOnReader | src/day5.rs:111-122 | for a rule `a\|a` the two readers leave different entries, because they write in opposite orders |
| Day5.Parse10To99 | src/day5.rs:203-205 | two digits give `10*(a-'0') + (b-'0')`, a page in 0..99 |
| Day5.Swizzle | src/day5.rs:168-178 | lane `N < 21` of the swizzle is input lane `3N + offset` |
| Day5.LaneNumbers | src/day5.rs:187-194 | lane `N < 21` of `nums` is the number parsed from bytes `3N` and `3N+1` of the chunk |
| Day5.LaneSeparators | src/day5.rs:195 | lane `N < 21` of `sep` is byte `3N+2` of the chunk |
| Day5.LaneNumberIsParse | src/day5.rs:189-193 | the lane arithmetic (wrapping `u8`) equals `parse_10_to_99` |
| Day5.EnterRule | src/day5.rs:111-123 | entering one rule updates the table as the rule says |
| Day5.EnterChunk | src/day5.rs:110-116 | one 64-byte chunk enters its ten rules, in order |
| Day5.EnterChunks | src/day5.rs:110-116 | the chunk loop consumes 60 bytes per chunk, enters ten rules for each, and leaves fewer than 64 bytes |
| Day5.EnterRemainder | src/day5.rs:118-123 | the six-byte loop enters the remaining rules and leaves fewer than six bytes |
| Day5.ReadRules | src/day5.rs:110-123 | the table is filled with every rule of the section, in order |
| Day5.Stored | src/day5.rs:125-141 | a stored update is its pages followed by zeros, 23 in all, with the length byte |
| Day5.Push | src/day5.rs:134-140 | one number is stored at `pages[len]`, and a newline pushes the update and resets the buffer |
| Day5.ReadChunk | src/day5.rs:127-144 | one 64-byte chunk feeds its 21 numbers to the buffer |
| Day5.PushGroup | src/day5.rs:147-154 | one three-byte group is fed to the buffer |
| Day5.ReadTriples | src/day5.rs:146-155 | the three-byte loop feeds every whole group |
| Day5.ReadTail | src/day5.rs:157-162 | a trailing two-byte number closes the last update |
| Day5.ReadUpdates | src/day5.rs:125-162 | the updates read are the newline- or end-terminated groups of the section, each stored in 23 bytes with its length |
| Day5.UpdatesOfText | src/day5.rs:125-162 | a round trip: writing any list of updates (each non-empty, pages 0..99) as lines `ab,cd,...,yz` ending in newlines and splitting that text with `Updates`, the split `ReadUpdates` is proved against, gives the list back |
| Day5.UpdatesNonEmpty | src/day5.rs:136-141 | every update pushed has at least one page |
| Day5.FindSplit | src/day5.rs:88-105 | the backward search and the forward scan find the first `\n\n` at or after the chunk where the search stopped |
| Day5.SplitAtBlankLine | src/day5.rs:86-108 | when the input has exactly one blank line, the split is at it |
| Day5.FromStr | src/day5.rs:81-165 | the table holds the rules of the first section and the updates are those of the second |
| Day5.IsUpdateValid | src/day5.rs:39-41 | an update is valid iff every adjacent pair is `Less` in the table |
| Day5.StoredMiddles | src/day5.rs:15-20 | the sum over the stored records, read at `len/2`, equals the sum of the middle pages of the valid updates |
| Day5.Part1 | src/day5.rs:11-21 | part 1 is the sum of the middle pages of the valid updates |
| Day5.Part1Obeys | src/day5.rs:11-21 | with consistent rules, that sum is the sum of the middle pages of the updates whose every adjacent pair is a rule |
| Day5.OutOfOrder | src/day5.rs:27-30 | part 2 keeps exactly the updates that are not in order: every kept update is an input update out of order, and every input update out of order is kept |
| Day5.OutOfOrderMiddle | src/day5.rs:31-34 | each update part 2 keeps has at least two pages, and `len/2` indexes inside it |
| Day6.AsOrdinal | src/day6.rs:109-116 | the ordinal is in 0..3 |
| Day6.FromOrdinal | src/day6.rs:109-116 | the ordinal is a bijection onto 0..3 |
| Day6.OrdinalRoundTrip | src/day6.rs:109-116 | the direction of the ordinal of `d` is `d` |
| Day6.TurnAdvancesOrdinal | src/day6.rs:109-125 | turning right adds 1 to the ordinal, mod 4 |
| Day6.FourTurns | src/day6.rs:118-125 | four right turns are the identity, and one turn changes the direction |
| Day6.Step | src/day6.rs:75-94 | the walk stops iff the cell ahead is off the grid; a wall ahead turns the guard right without moving it; an empty cell ahead is stepped onto with the direction kept |
| Day6.GoneStaysGone | src/day6.rs:81-87 | once the guard has left, it stays gone |
| Day6.RunInside | src/day6.rs:74-96 | the guard is always inside the grid while the walk lasts |
| Day6.NeverOnWall | src/day6.rs:88-95 | the guard never stands on a wall, other than at the start, so walls are never marked |
| Day6.Periodic | src/day6.rs:49-54 | two equal states stay equal for every number of further steps |
| Day6.RepeatLoops | src/day6.rs:49-54 | a repeated state means the guard never leaves |
| Day6.EscapesIsNotLoops | src/day6.rs:28-57 | the guard leaves iff it does not walk forever |
| Day6.Advance | src/day6.rs:75-94 | one step on the grid array is `Step` on its contents |
| Day6.ReachedWithinAll | src/day6.rs:74-96 | once the walk has ended, a cell reached within its steps is a cell reached at all |
| Day6.GetVisitedCells | src/day6.rs:65-98 | a cell is marked iff the guard stands on it at some point of the walk, the start included |
| Day6.CountMarked | src/day6.rs:8 | the count is the number of marked cells |
| Day6.Columns | src/day6.rs:136 | the width is the number of bytes before the first newline |
| Day6.GuardBeforeMeaning | src/day6.rs:139-166 | the guard found is the last guard glyph read so far, or (0, 0, Up) when there is none |
| Day6.ParseLine | src/day6.rs:143-169 | one line sets its row of the grid from the glyphs and updates the guard |
| Day6.ParseInput | src/day6.rs:134-172 | the grid has one row per line of the text (the corrected height) and `width` columns; `#` is a wall and `.` or a guard glyph is empty; the guard is the last guard glyph |
| Day6.GuardInside | src/day6.rs:147-166 | the guard starts inside the grid |
| Day6.Part1 | src/day6.rs:4-9 | part 1 is the number of cells the guard stands on |
| Day6.Block | src/day6.rs:21 | the grid with one more wall and every other cell unchanged |
| Day6.UnblockRestores | src/day6.rs:58 | putting `Empty` back on an empty cell restores the grid |
| Day6.Trial | src/day6.rs:22-57 | the trial returns true iff the guard never leaves; it ends because each step either stops or marks a new (cell, direction) state |
| Day6.TryBlock | src/day6.rs:18-58 | a candidate counts iff it is visited, is not the start and its wall traps the guard; the grid is unchanged afterwards |
| Day6.CountBlocks | src/day6.rs:16-60 | the double loop counts the looping blocks and leaves the grid as it was |
| Day6.Part2 | src/day6.rs:11-63 | part 2 is the number of cells on the walk, other than the start, whose wall makes the guard loop |
| Day6.BoundsAsWrittenOnSquare | src/day6.rs:81-84 | the bounds check as written is right on a grid with as many rows as columns; as written, a square text reaches that grid only without its final newline |
| Day6.StepAsWritten | src/day6.rs:75-94 | when the step as written goes on, it agrees with the corrected step |
| Day6.BoundsAsWrittenStopsEarly | src/day6.rs:81-87 | on the one-row grid ">..", the step as written stops while the guard is still inside |
| Day6.RowsAreLines | src/day6.rs:137-142 | with the corrected height, row `y` exists iff line `y` of the text starts inside it, so the grid has exactly the rows that `chunks(width + 1)` fills |
| Day6.RowsAsWritten | src/day6.rs:137 | the height as written, `len/width`, leaves at most `len` cells |
| Day6.GridAsWritten | src/day6.rs:137-138 | the grid as written has `len/width` rows of `width` cells |
| Day6.HeightAsWrittenAddsRow | src/day6.rs:137 | on "..\nv.\n" the height as written is 3 for two lines, and the guard facing down steps into the extra empty row, where the corrected grid lets it leave |
| Day6.HeightAsWrittenPassesColumn | src/day6.rs:137 | on "..\n>.\n" the grid as written has 3 rows of 2 columns, and the swapped bounds test lets through column 2, outside the matrix, which line 88 then reads |
| Day6.StartAsWrittenMissed | src/day6.rs:71-95 | on "..\n^.", the marks as written miss the start cell, which the guard stands on |
| Day7.NextOpIsNextRank | src/day7.rs:26-46 | the successor of an operator is the next one in rank: Add to Mul for part 1, Add to Mul to Cons for part 2, and none after the last |
| Day7.ValueBound | src/day7.rs:51-63 | an assignment, read as a base-2 or base-3 number, is below `base^n` |
| Day7.ValueInjective | src/day7.rs:51-63 | distinct assignments have distinct values |
| Day7.SuccessorValue | src/day7.rs:51-63 | the odometer successor adds 1 to the value, and there is none exactly at the last value |
| Day7.Enumerates | src/day7.rs:51-63 | `m` steps from all-Add reach the assignment of value `m`, for every `m < base^n` |
| Day7.EveryAssignmentOnce | src/day7.rs:51-63 | every assignment is reached exactly once from all-Add, in odometer order, and the enumeration ends after `base^n` steps |
| Day7.EnumerationEnds | src/day7.rs:102-106 | the step after the last assignment returns none |
| Day7.Next | src/day7.rs:51-63 | `Ops::next` yields the successor and returns `k` such that `ops[n-k]` is the operator that advanced and changed, every operator after it was spent and is reset to Add, and `ops[0..n-k]` is unchanged, so `k` is 1 plus the number reset; with no successor, all operators are reset to Add |
| Day7.ConsConcatenates | src/day7.rs:89-92 | `prev * 10^digits + var` is decimal concatenation |
| Day7.EvalPrefix | src/day7.rs:84-95 | the value of a prefix depends only on the operators of that prefix |
| Day7.CachedPrefix | src/day7.rs:95-104 | after `Some(k)`, the first `n-k` cache entries are still right |
| Day7.Refresh | src/day7.rs:84-95 | after the inner loop, `cache[i]` is the left-to-right value of the first `i+1` operations |
| Day7.FailsEverywhere | src/day7.rs:102-106 | if every assignment has failed, the line is not solvable |
| Day7.Advance | src/day7.rs:101-106 | advancing the odometer either proves that the line has no solution or gives a larger untried value with the cache still right below `valid` |
| Day7.Check | src/day7.rs:74-107 | the callback accepts a line iff some assignment of the allowed operators evaluates to the target |
| Day7.AddUp | src/day7.rs:72-109 | the callbacks add each solvable line's target once |
| Day7.Partn | src/day7.rs:71-110 | `partn` returns the sum of the targets of the solvable lines |
| Day7.Part1 | src/day7.rs:10-13 | part 1 is the sum with `+` and `*` |
| Day7.Part2 | src/day7.rs:66-69 | part 2 is the sum with `+`, `*` and concatenation |
| Day7.Part2CoversPart1 | src/day7.rs:10-69 | part 2's sum is never below part 1's |
| Day7Lines.DecimalAppend | src/day7.rs:142-143 | accumulating digits is the decimal value of the concatenation |
| Day7Lines.FeedCount | src/day7.rs:134-152 | the first non-digit is skipped and each later one closes a number, so the count is one less than the number of non-digits |
| Day7Lines.ScanChunk | src/day7.rs:122-154 | the chunk loop finds the first newline and reads the numbers and digit counts of the line up to it |
| Day7Lines.TrimColons | src/day7.rs:168 | the trimmed field is a prefix that does not end in `:` |
| Day7Lines.ReadFields | src/day7.rs:164-174 | the fallback reader gives the numbers and digit counts of the space-separated, colon-trimmed fields |
| Day7Lines.ChunkLine | src/day7.rs:122-157 | one chunk yields the first line and advances past its newline |
| Day7Lines.IterChunks | src/day7.rs:122-157 | the chunk loop yields the lines it reads and leaves fewer than 64 bytes |
| Day7Lines.IterRemainder | src/day7.rs:159-175 | the fallback yields the non-empty lines of the rest |
| Day7Lines.IterLines | src/day7.rs:112-176 | the lines handed to the callback are the lines of the input |
| Day7Lines.ScanLineOfEquation | src/day7.rs:134-152 | the chunk reader decodes an equation `t: a b c` to its numbers and digit counts |
| Day7Lines.FieldsLineOfEquation | src/day7.rs:164-174 | the fallback reader decodes an equation to the same numbers and digit counts |
| Day7Lines.SplitEquation | src/day7.rs:167 | splitting an equation on spaces gives the target with its colon, then the numbers |
| Day7Lines.LinesOfText | src/day7.rs:160 | `str::lines` of a text of equations gives the equations |
| Day7Lines.ReadText | src/day7.rs:112-176 | whatever the split between the two paths, the reader decodes every equation of a text, in order |

## Left out

- SIMD intrinsics, `unsafe` slice reinterpretation and the `aoc` attribute plumbing are not modelled. Lanes are sequences, bitmasks are sequences of booleans, and the `u64x4` repacking is 32-byte blocks read little-endian.
- `src/day3.rs`, `src/lib.rs` and `benches/day1.rs` are not part of this model.
- `with_capacity` hints are not modelled, because they do not change behaviour.
- The `accept` and `handle_line` callbacks are modelled as lists of what they receive. Each caller folds over that list, which is what the callbacks do with their captured state.
- Day2.Part1: requires at most eight readings per line and no blank line before the last. A longer line overruns its slot and a blank line shifts every later slot, and the source does not guard against either.
- Day2.Part2: the same precondition as `Day2.Part1`.
- Day1.ParseInput: requires `Framed`, meaning the length is a whole number of 14-byte records, with or without the final newline. On other lengths the source slices `input[8..13]` past the end and panics (src/day1.rs:61-83).
- Day1.Part1: the same precondition as `Day1.ParseInput`.
- Day1.Part2: the same precondition as `Day1.ParseInput`.
- Day1.SortAscending: stands in for the library `sort_unstable`, and is specified only as a sorted permutation. `Day1.AscendingUnique` shows that any sort gives the same list.
- Day1.SortDescending: stands in for `sort_unstable_by` with the reversed comparator, and is specified the same way.
- Day1.Parse5DigitBase10: the source's `u8` subtraction wraps for non-digit bytes. The model keeps the wrapped value in `Decimal`, but states the 0..99999 bound only for digits.
- Day4.Part1: requires `Part1Ready`, meaning at least three rows and, when there are more, at least three columns and whole rows. Otherwise the source's `usize` arithmetic underflows or an index passes the buffer, and it panics.
- Day4.Part2: requires `Part2Ready`, meaning at least two rows and, when there are more, at least two columns and whole rows. The reason is the same as for `Day4.Part1`.
- Day4.ScansFindOccurrences: the connection to the reference count needs a grid of at least 3x3 letters. Smaller grids are handled by `Day4.Part1` only up to its own contract.
- Day4.ScansFindCrosses: needs at least two rows.
- Day5.FromStr: requires `Readable`. This holds when the backward search of src/day5.rs:88-97 finds the blank line, every rule page is at most 99, no update ends in a lone byte (line 159 reads two), and no update outgrows the 23-page buffer. Otherwise the source underflows `curr`, indexes past the table or indexes past its buffers.
- Day5.OutOfOrder: part 2 is modelled only up to the sort, because the library sort's result depends on a comparator that is not shown to be a total order. What is kept is which updates are sorted, in both directions, and that `len/2` indexes inside each.
- Day5.Part1: requires every page to be at most 99, which the two-digit parser gives for digit input. A larger `u8` from non-digit bytes can index past the table.
- Day6.ParseInput: requires `Parsable`, meaning a non-empty first line and only `#`, `.` and guard glyphs in the cells read. On any other text the source panics, dividing by a zero width (src/day6.rs:137) or on an unexpected byte (src/day6.rs:167).
- Day6.GetVisitedCells: requires the guard to leave the grid. On an input where it walks forever the source does not return.
- Day6.Part1: the same precondition as `Day6.GetVisitedCells`.
- Day6.Part2: the same precondition as `Day6.GetVisitedCells`.
- Day6.Step: uses the corrected bounds test. The test as written is `Day6.StepAsWritten`; see Findings.
- Day7.Partn: numbers are unbounded. The `u64` overflow of products, concatenations and the total is not modelled.
- Day7.Check: the operator and cache arrays are sized to the line, not to the fixed 13. `Day7.Checkable` bounds lines at 13 numbers, as the source's arrays do.
- Day7Lines.IterLines: requires `Readable`. Every 64-byte chunk must hold a newline (`first_set().unwrap()`, src/day7.rs:125) and at most `MaxLineLength` numbers per line. A line on the fallback path must have at most `MaxLineLength` fields, each of them digits once colons are trimmed (`parse::<u64>().unwrap()`, line 170). On other input the source panics.
- Day7.Partn: besides the precondition of `Day7Lines.IterLines`, requires every line to be `Checkable`: a target, a first number and at least one more (line 97 reads `cache[vars.len() - 1]`), and at most 13 numbers, the size of the source's fixed arrays. Otherwise the source indexes out of bounds and panics.
- Day7.Part1: the same precondition as `Day7.Partn`.
- Day7.Part2: the same precondition as `Day7.Partn`.
- Day7Lines.ReadFields: requires every field to be digits after the colon is trimmed. `parse::<u64>` also accepts a leading `+`, which is not modelled.

## Findings

| source | as written | input that shows it | evidently intended | confidence | as-written member | corrected member |
|---|---|---|---|---|---|---|
| src/day2.rs:202-206 | `data` is padded to a multiple of 32 bytes plus one, but the evaluator reads only whole 64-byte chunks (line 109), so with an odd number of 32-byte blocks the last four report slots are never evaluated | `7 6 4 2 1` (part 1 gives 0; the report is safe) | pad to a multiple of 64, so that every slot is evaluated | high, not executed | Day2.PaddingAsWrittenSkipsReport | Day2.Part1 |
| src/day2.rs:32 | `saturating_sub(1)` turns the level of a one-reading report into 0, which selects all eight delta bits of its zero-padded slot, so every pass sees flat deltas | five lines of `5`: 40 bytes pad to one whole chunk as written, so part 1 gives 5 and part 2 gives 0 | keep level 1 (no deltas), so a one-reading report stays safe in part 2 | high, not executed | Day2.DecrementAsWrittenDropsOneReading | Day2.Part2 |
| src/day5.rs:46-50 | `SIZE` is `99*128 + 99`, so the pair (99, 99) has offset `SIZE` and indexes one past the table | a rule `99\|99`, or an update with two consecutive pages 99 | `SIZE` one larger, so that every pair of pages 0..99 has an entry | high, not executed | Day5Table.OffsetAsWrittenOverflows | Day5Table.PagesInTable |
| src/day6.rs:81-84 | `new_x`, a column, is checked against `nrows` and `new_y`, a row, against `ncols`; the trial loop at lines 35-40 has the same test | `>..` (one row, three columns: the guard stops at once although the cell ahead is inside) | check the column against `ncols` and the row against `nrows` | high, not executed | Day6.BoundsAsWrittenStopsEarly | Day6.Step |
| src/day6.rs:137 | `height` is `len/width`, which counts a text of at least `width` lines ending in a newline (every square puzzle text) as one row more than it has lines; the extra row is empty, and with a correct bounds test the guard walks into it. With fewer rows than lines (`...` newline `.`), line 145 indexes past the grid | `..` newline `v.` newline (3 rows for 2 lines: the guard facing down steps into row 2 instead of leaving); `..` newline `>.` newline (the test as written lets through column 2 of a 2-column grid) | one row per line, `Lines(len, width + 1)` | high, not executed | Day6.HeightAsWrittenAddsRow | Day6.RowsAreLines |
| src/day6.rs:71-95 | `visited` is marked only after each step, so the start cell is unmarked unless the guard turns there first or the walk returns to it | `..` newline `^.` (the guard walks up and out; part 1 counts 1 of the 2 cells it stood on) | mark the start cell before the loop | medium, not executed | Day6.StartAsWrittenMissed | Day6.GetVisitedCells |
