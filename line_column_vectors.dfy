/** The concrete cases of the library's test suite, on its five-line,
    49-character text (the fourth line is six Japanese characters, one
    column each). */
module LineColumnVectors {
  import opened Wrappers
  import opened LineTable
  import opened LineColumn

  const TestString: string :=
    "ABCDEFG" + "\n" + "HIJKLMNOPQRSTU" + "\n" + "VWXYZ" + "\n" + "日本語の文字" + "\n" + "English words"

  /** The test text and a finder on it with the given origin. */
  function TestFinder(origin: int): (f: Finder)
    ensures Valid(f) && f.source == TestString && f.origin == origin
    ensures f.lineToIndex == [0, 8, 23, 29, 36]
  {
    TestStringTable();
    Finder(TestString, [0, 8, 23, 29, 36], origin)
  }

  /** The text is 49 characters long and its lines start at 0, 8, 23, 29
      and 36. */
  lemma TestStringTable()
    ensures |TestString| == 49
    ensures LineStarts(TestString) == [0, 8, 23, 29, 36]
  {
    var a := "ABCDEFG\n";
    assert LineStarts(a) == [0, 8] by {
      assert a == "" + "ABCDEFG" + "\n";
      AppendLine("", "ABCDEFG");
    }
    var b := a + "HIJKLMNOPQRSTU" + "\n";
    assert LineStarts(b) == [0, 8, 23] by {
      AppendLine(a, "HIJKLMNOPQRSTU");
    }
    var c := b + "VWXYZ" + "\n";
    assert LineStarts(c) == [0, 8, 23, 29] by {
      AppendLine(b, "VWXYZ");
    }
    var d := c + "日本語の文字" + "\n";
    assert LineStarts(d) == [0, 8, 23, 29, 36] by {
      AppendLine(c, "日本語の文字");
    }
    assert LineStarts(d + "English words") == LineStarts(d) by {
      AppendWithoutNewline(d, "English words");
    }
    assert d + "English words" == TestString;
  }

  /** `fromIndex` on the test text, 1-origin and 0-origin, including the
      three indexes it refuses. */
  lemma FromIndexVectors()
    ensures PositionOf(TestFinder(1), Int(3)) == Some(LineCol(1, 4))
    ensures PositionOf(TestFinder(1), Int(15)) == Some(LineCol(2, 8))
    ensures PositionOf(TestFinder(1), Int(33)) == Some(LineCol(4, 5))
    ensures PositionOf(TestFinder(1), Int(43)) == Some(LineCol(5, 8))
    ensures PositionOf(TestFinder(1), Int(48)) == Some(LineCol(5, 13))
    ensures PositionOf(TestFinder(1), Int(-1)) == None
    ensures PositionOf(TestFinder(1), Int(49)) == None
    ensures PositionOf(TestFinder(1), NaN) == None
    ensures PositionOf(TestFinder(0), Int(3)) == Some(LineCol(0, 3))
    ensures PositionOf(TestFinder(0), Int(15)) == Some(LineCol(1, 7))
    ensures PositionOf(TestFinder(0), Int(33)) == Some(LineCol(3, 4))
    ensures PositionOf(TestFinder(0), Int(43)) == Some(LineCol(4, 7))
    ensures PositionOf(TestFinder(0), Int(48)) == Some(LineCol(4, 12))
    ensures PositionOf(TestFinder(0), Int(-1)) == None
    ensures PositionOf(TestFinder(0), Int(49)) == None
    ensures PositionOf(TestFinder(0), NaN) == None
  {
  }

  /** The shorthand `LineColumnFinder(text, 15)` gives `{ line: 2, col: 8 }`. */
  lemma ShorthandVector()
    ensures PositionOf(Finder(TestString, LineStarts(TestString), 1), Int(15)) == Some(LineCol(2, 8))
  {
    FromIndexVectors();
  }

  /** `toIndex` on the test text with 1-origin. */
  lemma ToIndexVectorsOrigin1()
    ensures var f := TestFinder(1);
      && ToIndex(f, Args(Int(1), Some(Int(4)))) == 3
      && ToIndex(f, Args(Int(2), Some(Int(8)))) == 15
      && ToIndex(f, Args(Int(4), Some(Int(5)))) == 33
      && ToIndex(f, Args(Int(5), Some(Int(8)))) == 43
      && ToIndex(f, Args(Int(5), Some(Int(13)))) == 48
      && ToIndex(f, Args(Int(1), Some(Int(8)))) == 7
      && ToIndex(f, ColObject(Int(2), Int(8))) == 15
      && ToIndex(f, ColumnObject(Int(2), Int(8))) == 15
      && ToIndex(f, Pair(Int(2), Int(8))) == 15
      && ToIndex(f, Args(Int(0), Some(Int(4)))) == -1
      && ToIndex(f, Args(Int(2), Some(Int(0)))) == -1
      && ToIndex(f, Args(Int(6), Some(Int(1)))) == -1
      && ToIndex(f, Args(Int(1), Some(Int(9)))) == -1
      && ToIndex(f, Args(Int(5), Some(Int(14)))) == -1
      && ToIndex(f, Args(Int(1), None)) == -1
      && ToIndex(f, Args(NaN, Some(Int(1)))) == -1
      && ToIndex(f, Args(Int(1), Some(NaN))) == -1
  {
  }

  /** `toIndex` on the test text with 0-origin. */
  lemma ToIndexVectorsOrigin0()
    ensures var f := TestFinder(0);
      && ToIndex(f, Args(Int(0), Some(Int(3)))) == 3
      && ToIndex(f, Args(Int(1), Some(Int(7)))) == 15
      && ToIndex(f, Args(Int(3), Some(Int(4)))) == 33
      && ToIndex(f, Args(Int(4), Some(Int(7)))) == 43
      && ToIndex(f, Args(Int(0), Some(Int(0)))) == 0
      && ToIndex(f, Args(Int(4), Some(Int(12)))) == 48
      && ToIndex(f, Args(Int(0), Some(Int(7)))) == 7
      && ToIndex(f, ColObject(Int(1), Int(7))) == 15
      && ToIndex(f, ColumnObject(Int(1), Int(7))) == 15
      && ToIndex(f, Pair(Int(1), Int(7))) == 15
      && ToIndex(f, ColObject(Int(0), Int(0))) == 0
      && ToIndex(f, ColumnObject(Int(0), Int(0))) == 0
      && ToIndex(f, Pair(Int(0), Int(0))) == 0
      && ToIndex(f, Args(Int(-1), Some(Int(3)))) == -1
      && ToIndex(f, Args(Int(1), Some(Int(-1)))) == -1
      && ToIndex(f, Args(Int(5), Some(Int(0)))) == -1
      && ToIndex(f, Args(Int(0), Some(Int(8)))) == -1
      && ToIndex(f, Args(Int(4), Some(Int(13)))) == -1
      && ToIndex(f, Args(Int(1), None)) == -1
      && ToIndex(f, Args(NaN, Some(Int(1)))) == -1
      && ToIndex(f, Args(Int(1), Some(NaN))) == -1
  {
  }
}
