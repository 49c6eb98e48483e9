/** LineColumnFinder: built once from a text, it answers index -> (line, col)
    and (line, col) -> index queries against the text's line-start table.
    Line and column numbers cross the boundary shifted by the finder's
    origin (1 by default, or 0); internally both are 0-based. */
module LineColumn {
  import opened Wrappers
  import opened LineTable

  /** A JavaScript number as the finder meets it: an integer, or NaN. */
  datatype Number = Int(value: int) | NaN

  /** The `{ line, col }` object that `fromIndex` returns. */
  datatype LineCol = LineCol(line: int, col: int)

  /** The finder object: its text, its table of line starts (0-based,
      whatever the origin) and its origin. None of them changes after
      construction. */
  datatype Finder = Finder(source: string, lineToIndex: seq<nat>, origin: int)

  /** Every finder is built by `Create`, which keeps this. */
  predicate Valid(f: Finder) {
    f.lineToIndex == LineStarts(f.source)
  }

  /** The constructor: an absent text is the empty text, an absent origin
      is 1. The text is scanned once, and the offset just past each "\n"
      is appended to a table that starts as [0]. */
  method Create(text: Option<string>, origin: Option<int>) returns (f: Finder)
    ensures f.source == (if text.Some? then text.value else "")
    ensures f.origin == (if origin.Some? then origin.value else 1)
    ensures f.lineToIndex == LineStarts(f.source)
    ensures IsLineTable(f.source, f.lineToIndex)
    ensures |f.lineToIndex| == multiset(f.source)['\n'] + 1
  {
    var s := if text.Some? then text.value else "";
    var table: seq<nat> := [0];
    var k := 0;
    while k < |s|
      invariant 0 <= k <= |s|
      invariant table == LineStarts(s[..k])
    {
      assert s[..k + 1][..k] == s[..k];
      if s[k] == '\n' {
        table := table + [k + 1];
      }
      k := k + 1;
    }
    assert s[..k] == s;
    LineStartsIsLineTable(s);
    LineCount(s);
    f := Finder(s, table, if origin.Some? then origin.value else 1);
  }

  /** What `fromIndex` answers: null for NaN and for an index outside the
      text; otherwise the line holding the index (the greatest line start
      at or before it) and the distance from that start, both shifted by
      the origin. */
  function PositionOf(f: Finder, index: Number): (r: Option<LineCol>)
    requires Valid(f)
    ensures r.None? <==> index.NaN? || index.value < 0 || index.value >= |f.source|
    ensures r.Some? ==> && OnLine(f.source, f.lineToIndex, index.value, r.value.line - f.origin)
                        && r.value.col - f.origin == index.value - f.lineToIndex[r.value.line - f.origin]
  {
    match index
    case NaN => None
    case Int(i) =>
      if i < 0 || i >= |f.source| then None
      else
        LineStartsIsLineTable(f.source);
        LineOfIndex(f.source, f.lineToIndex, i, 0);
        var L := LastStartAtOrBefore(f.lineToIndex, i);
        Some(LineCol(L + f.origin, i - f.lineToIndex[L] + f.origin))
  }

  /** `fromIndex`: a binary search of the table for the line holding the
      index. */
  method FromIndex(f: Finder, index: Number) returns (r: Option<LineCol>)
    requires Valid(f)
    ensures r == PositionOf(f, index)
  {
    if index.NaN? || index.value < 0 || index.value >= |f.source| {
      return None;
    }
    var i, t := index.value, f.lineToIndex;
    var lo, hi := 0, |t| - 1;
    while lo < hi
      invariant 0 <= lo <= hi < |t|
      invariant t[lo] <= i
      invariant hi == |t| - 1 || i < t[hi + 1]
      decreases hi - lo
    {
      var mid := lo + (hi - lo + 1) / 2;
      if i < t[mid] {
        hi := mid - 1;
      } else {
        lo := mid;
      }
    }
    LineStartsIsLineTable(f.source);
    LineOfIndex(f.source, t, i, lo);
    r := Some(LineCol(lo + f.origin, i - t[lo] + f.origin));
  }

  /** `toIndex(line, col)` on two integers: both are shifted back by the
      origin; the line must exist, the column must not be negative, and the
      index must stay before the end of that line, which on every line but
      the last is the line's own "\n" (so a column equal to the line's
      length is accepted) and on the last line the end of the text.
      Otherwise the answer is -1. */
  function ToIndexAt(f: Finder, line: int, col: int): (r: int)
    ensures r >= -1
    ensures r != -1 ==> && OnLine(f.source, f.lineToIndex, r, line - f.origin)
                        && r - f.lineToIndex[line - f.origin] == col - f.origin
    ensures (&& 0 <= line - f.origin < |f.lineToIndex|
             && 0 <= col - f.origin
             && OnLine(f.source, f.lineToIndex, f.lineToIndex[line - f.origin] + col - f.origin, line - f.origin))
            ==> r == f.lineToIndex[line - f.origin] + col - f.origin
  {
    var L, C := line - f.origin, col - f.origin;
    if 0 <= L < |f.lineToIndex| && 0 <= C && C < LineEnd(f.source, f.lineToIndex, L) - f.lineToIndex[L]
    then f.lineToIndex[L] + C
    else -1
  }

  /** The shapes `toIndex` accepts: two arguments (the column possibly
      missing), `{ line, col }`, `{ line, column }` and `[line, col]`. */
  datatype PositionArg =
    | Args(line: Number, maybeCol: Option<Number>)
    | ColObject(line: Number, col: Number)
    | ColumnObject(line: Number, column: Number)
    | Pair(first: Number, second: Number)

  /** Every shape reduced to a (line, column) pair; None when the column is
      missing. */
  function Normalize(arg: PositionArg): Option<(Number, Number)> {
    match arg
    case Args(line, col) => if col.Some? then Some((line, col.value)) else None
    case ColObject(line, col) => Some((line, col))
    case ColumnObject(line, column) => Some((line, column))
    case Pair(first, second) => Some((first, second))
  }

  /** `toIndex` on any accepted shape: -1 for a missing column or a NaN,
      otherwise the two-integer lookup. The answer is -1 or an index of the
      text. */
  function ToIndex(f: Finder, arg: PositionArg): (r: int)
    ensures r >= -1
    ensures Valid(f) ==> r < |f.source|
    ensures r != -1 ==> Normalize(arg).Some? && Normalize(arg).value.0.Int? && Normalize(arg).value.1.Int?
  {
    match Normalize(arg)
    case None => -1
    case Some((line, col)) =>
      if line.NaN? || col.NaN? then -1
      else
        LineStartsIsLineTable(f.source);
        ToIndexAt(f, line.value, col.value)
  }

  /** The shorthand `LineColumnFinder(text, index)`: a fresh finder with the
      default origin, asked at once for `fromIndex(index)`. */
  method Locate(text: Option<string>, index: Number) returns (r: Option<LineCol>)
    ensures var s := if text.Some? then text.value else "";
            r == PositionOf(Finder(s, LineStarts(s), 1), index)
  {
    var f := Create(text, None);
    r := FromIndex(f, index);
  }

  /** Round trip from an index: `toIndex(fromIndex(i)) == i` for every index
      of the text. */
  lemma FromIndexThenToIndex(f: Finder, i: int)
    requires Valid(f) && 0 <= i < |f.source|
    ensures PositionOf(f, Int(i)).Some?
    ensures ToIndexAt(f, PositionOf(f, Int(i)).value.line, PositionOf(f, Int(i)).value.col) == i
  {
  }

  /** Round trip from a position: whenever `toIndex(line, col)` finds an
      index, `fromIndex` maps it back to the same line and column. */
  lemma ToIndexThenFromIndex(f: Finder, line: int, col: int)
    requires Valid(f) && ToIndexAt(f, line, col) != -1
    ensures 0 <= ToIndexAt(f, line, col) < |f.source|
    ensures PositionOf(f, Int(ToIndexAt(f, line, col))) == Some(LineCol(line, col))
  {
    var i := ToIndexAt(f, line, col);
    LineStartsIsLineTable(f.source);
    LineOfIndex(f.source, f.lineToIndex, i, line - f.origin);
  }

  /** The two queries are inverse: (line, col) is what `fromIndex` gives
      for `i` exactly when `toIndex(line, col)` gives `i`. */
  lemma QueriesInverse(f: Finder, i: int, line: int, col: int)
    requires Valid(f)
    ensures PositionOf(f, Int(i)) == Some(LineCol(line, col)) <==> ToIndexAt(f, line, col) == i && i != -1
  {
    if PositionOf(f, Int(i)) == Some(LineCol(line, col)) {
      FromIndexThenToIndex(f, i);
    }
    if ToIndexAt(f, line, col) == i && i != -1 {
      ToIndexThenFromIndex(f, line, col);
    }
  }

  /** Changing the origin shifts every returned and accepted line and
      column by the same amount and changes nothing else. */
  lemma OriginShift(f: Finder, origin: int, index: Number, line: int, col: int)
    requires Valid(f)
    ensures var g, d := f.(origin := origin), origin - f.origin;
            && Valid(g)
            && PositionOf(g, index) == (if PositionOf(f, index).None? then None
                                        else Some(LineCol(PositionOf(f, index).value.line + d,
                                                          PositionOf(f, index).value.col + d)))
            && ToIndexAt(g, line + d, col + d) == ToIndexAt(f, line, col)
  {
  }

  /** On every line but the last, a column equal to the line's length
      (terminator excluded) is accepted and lands on the "\n"; one column
      further is refused. */
  lemma ColumnAtLineLength(f: Finder, L: nat)
    requires Valid(f) && L + 1 < |f.lineToIndex|
    ensures var t := f.lineToIndex;
            var length := t[L + 1] as int - t[L] - 1;
            && ToIndexAt(f, L + f.origin, length + f.origin) == t[L + 1] as int - 1
            && 0 < t[L + 1] <= |f.source| && f.source[t[L + 1] - 1] == '\n'
            && ToIndexAt(f, L + f.origin, length + 1 + f.origin) == -1
  {
    LineStartsIsLineTable(f.source);
    assert f.lineToIndex[L] < f.lineToIndex[L + 1];
  }

  /** On the last line, the column equal to its length would be the end of
      the text and is refused. */
  lemma LastLineEndRefused(f: Finder)
    requires Valid(f)
    ensures var L := |f.lineToIndex| - 1;
            ToIndexAt(f, L + f.origin, |f.source| - f.lineToIndex[L] + f.origin) == -1
  {
  }

  /** `toIndex` answers -1 for a line or a column below the origin, a line
      at or past the line count, and a column that reaches past the end of
      its line or of the text. */
  lemma ToIndexRefuses(f: Finder, line: int, col: int)
    requires Valid(f)
    ensures line < f.origin ==> ToIndexAt(f, line, col) == -1
    ensures col < f.origin ==> ToIndexAt(f, line, col) == -1
    ensures line - f.origin >= |f.lineToIndex| ==> ToIndexAt(f, line, col) == -1
    ensures var L := line - f.origin;
            0 <= L < |f.lineToIndex| && f.lineToIndex[L] + col - f.origin >= LineEnd(f.source, f.lineToIndex, L)
            ==> ToIndexAt(f, line, col) == -1
    ensures line - f.origin == |f.lineToIndex| - 1 && f.lineToIndex[line - f.origin] + col - f.origin >= |f.source|
            ==> ToIndexAt(f, line, col) == -1
  {
  }

  /** Every argument shape gives the answer of the two-integer call, and a
      missing column or a NaN line or column gives -1. */
  lemma ToIndexShapes(f: Finder, line: Number, col: Number)
    ensures ToIndex(f, ColObject(line, col)) == ToIndex(f, Args(line, Some(col)))
    ensures ToIndex(f, ColumnObject(line, col)) == ToIndex(f, Args(line, Some(col)))
    ensures ToIndex(f, Pair(line, col)) == ToIndex(f, Args(line, Some(col)))
    ensures line.Int? && col.Int? ==> ToIndex(f, Args(line, Some(col))) == ToIndexAt(f, line.value, col.value)
    ensures line.NaN? || col.NaN? ==> ToIndex(f, Args(line, Some(col))) == -1
    ensures ToIndex(f, Args(line, None)) == -1
  {
  }

  /** The finder of the empty (or absent) text has the single line start 0,
      maps no index and accepts no position. */
  lemma EmptyFinder(origin: int, index: Number, line: int, col: int)
    ensures LineStarts("") == [0]
    ensures PositionOf(Finder("", [0], origin), index) == None
    ensures ToIndexAt(Finder("", [0], origin), line, col) == -1
  {
  }
}
