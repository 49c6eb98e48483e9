# line-column in Dafny

A model of `LineColumnFinder` from the `line-column` JavaScript library.
The finder is built once from a text and an optional origin (0 or 1, default 1).
Building it scans the text once and records `lineToIndex`, the table of line starts.
Entry 0 is 0, and one entry is added just past every `"\n"`.
The finder then answers two queries:

- `fromIndex(index)` gives `{ line, col }` for a flat index, or `null` when the index is NaN, negative, or not below the text's length.
- `toIndex(line, col)` gives the flat index back, or `-1` for any invalid position.
  It also accepts `{ line, col }`, `{ line, column }` and `[line, col]`.

Line and column numbers are shifted by the origin at the boundary.
Internally, and in `lineToIndex`, they are 0-based.

The library file `lib/line-column.js` is not part of this model.
The behaviour modelled here is the one the test suite `test/line-column-test.js` fixes, with its concrete cases.

Files:

- `wrappers.dfy` (module `Wrappers`): `Option`, used for `null` results and for missing arguments.
- `line_table.dfy` (module `LineTable`): the line-start table as values.
  It holds the table of the scan (`LineStarts`) and an independent description of a line-start table (`IsLineTable`).
  It proves the two agree and that every index of the text lies on exactly one line.
- `line_column.dfy` (module `LineColumn`): the finder.
  `Create` is the constructor's scanning loop, `FromIndex` is a binary search over the table, and `ToIndexAt` / `ToIndex` are the lookups.
  It also holds the round-trip, origin-shift, boundary and argument-shape lemmas.
- `line_column_vectors.dfy` (module `LineColumnVectors`): the test suite's 49-character text and its expected answers under both origins.

The rule for the column in `toIndex` is fixed by the tests (`toIndex(1, 8) == 7`, `toIndex(1, 9) == -1`).
Stated loosely, as "a column at or past the line's length is refused", it would contradict the first of them.
In 0-based terms, the column must be below the distance from the line's start to the next line's start, or to the end of the text on the last line.
A column equal to the line's length without its terminator therefore lands on the `"\n"`.

## Model

| member | source | states |
|---|---|---|
| `LineTable.LineStarts` | test/line-column-test.js:23-27 | the table of the scan starts with 0, is never empty, and holds only offsets within the text |
| `LineTable.LineStartsIsLineTable` | test/line-column-test.js:23-27 | the scanned table is strictly increasing from 0; every later entry follows a `"\n"`; every `"\n"` is followed by an entry |
| `LineTable.LineCount` | test/line-column-test.js:6-12 | the table has one entry per `"\n"` of the text plus one |
| `LineTable.LineTableUnique` | test/line-column-test.js:23-27 | any table meeting that description is exactly the scanned table |
| `LineTable.LastStartAtOrBefore` | test/line-column-test.js:42-56 | when the first start is at or before `i`, the result's start is at or before `i` and every later start is after `i` |
| `LineTable.LineOfIndex` | test/line-column-test.js:42-56 | each index of the text lies on exactly one line: the line whose start is the greatest one at or before it |
| `LineTable.AppendWithoutNewline` | test/line-column-test.js:6-12 | appending text without `"\n"` adds no line start |
| `LineTable.AppendLine` | test/line-column-test.js:6-12 | appending a line and its `"\n"` adds exactly the start just past that `"\n"` |
| `LineColumn.Create` | test/line-column-test.js:16-34 | an absent text counts as `""` and an absent origin as 1; the loop builds exactly the scanned table, which is a line table with one entry per `"\n"` plus one |
| `LineColumn.PositionOf` | test/line-column-test.js:37-97 | `null` exactly for NaN, a negative index, or an index at or past the end; otherwise the index lies on the returned line (less the origin), at the returned column less the origin from that line's start |
| `LineColumn.FromIndex` | test/line-column-test.js:37-97 | the binary search returns exactly `PositionOf` for every input, `null` cases included |
| `LineColumn.ToIndexAt` | test/line-column-test.js:101-149 | a result other than -1 lies on the given line (less the origin) at the given column (less the origin); every in-bounds position is found |
| `LineColumn.ToIndex` | test/line-column-test.js:101-233 | the answer is -1 or an index inside the text; a missing column or a NaN gives -1 |
| `LineColumn.Locate` | test/line-column-test.js:29-31 | the constructor with a numeric second argument is `fromIndex` on a fresh 1-origin finder |
| `LineColumn.FromIndexThenToIndex` | test/line-column-test.js:42-56 | for every index of the text, `toIndex(fromIndex(i)) == i` |
| `LineColumn.ToIndexThenFromIndex` | test/line-column-test.js:106-120 | whenever `toIndex(line, col)` finds an index, `fromIndex` of it gives back `(line, col)` |
| `LineColumn.QueriesInverse` | test/line-column-test.js:42-120 | `fromIndex(i) == (line, col)` exactly when `toIndex(line, col) == i` |
| `LineColumn.OriginShift` | test/line-column-test.js:69-86 | changing the origin by `d` adds `d` to every returned line and column, and `toIndex` shifted by `d` gives the same answer |
| `LineColumn.ColumnAtLineLength` | test/line-column-test.js:121-146 | on a non-final line, the column equal to the line's length is accepted and is the `"\n"`; one column further gives -1 |
| `LineColumn.LastLineEndRefused` | test/line-column-test.js:147-149 | on the last line, the column equal to its length would be the text's end and gives -1 |
| `LineColumn.ToIndexRefuses` | test/line-column-test.js:135-149 | -1 for a line or column below the origin, a line past the last one, or an index reaching the end of its line or of the text |
| `LineColumn.ToIndexShapes` | test/line-column-test.js:125-159 | `{ line, col }`, `{ line, column }` and `[line, col]` give the two-argument answer; a missing column or a NaN gives -1 |
| `LineColumn.EmptyFinder` | test/line-column-test.js:32-34 | the empty text has the single line start 0; `fromIndex` always gives `null` and `toIndex` always gives -1 |
| `LineColumnVectors.TestStringTable` | test/line-column-test.js:6-27 | the test text has length 49 and line starts `[0, 8, 23, 29, 36]` |
| `LineColumnVectors.FromIndexVectors` | test/line-column-test.js:37-97 | every `fromIndex` case of the suite, under both origins |
| `LineColumnVectors.ShorthandVector` | test/line-column-test.js:29-31 | `LineColumnFinder(text, 15)` gives `{ line: 2, col: 8 }` |
| `LineColumnVectors.ToIndexVectorsOrigin1` | test/line-column-test.js:103-160 | every 1-origin `toIndex` case of the suite |
| `LineColumnVectors.ToIndexVectorsOrigin0` | test/line-column-test.js:162-231 | every 0-origin `toIndex` case of the suite |

## Left out

- `lib/line-column.js` is not part of this model. Its exact code is not reproduced; the binary search in `FromIndex` is one search that returns the greatest line start at or before the index.
- Calling `LineColumnFinder` with or without `new`, and the `instanceof` checks (test/line-column-test.js:17-22): a JavaScript calling convention with no Dafny counterpart.
- The finder as a mutable JavaScript object: nothing in it changes after construction, so it is the value `Finder`, and `Create` returns it.
- Numbers as IEEE doubles: a number is an unbounded integer or NaN. Fractional numbers, infinities and the 2^53 limit are not modelled.
- UTF-16 surrogate pairs: the text is a `seq<char>` and each element is one column. The test's Japanese characters are single code units.
- Argument shapes other than the four the tests use. Not modelled: arrays with fewer than two elements, objects without `line`, and objects with both `col` and `column`.
- The origin is any integer the caller gives (default 1). The model does not restrict it to 0 and 1, and every lemma holds for any origin.
- The benchmark timing harness and the build and coverage tasks (`benchmark/benchmark.js`, `gulpfile.js`): file I/O, randomness and tooling, with no logic of the finder.
