/** The line-start table of a text: entry 0 is 0, and one entry is recorded
    just after every "\n". Everything here is about values; the scan that
    builds the table and the search that reads it live in LineColumn. */
module LineTable {

  /** The table as the scanner builds it: one more entry, the offset just
      past the terminator, for each "\n" met from left to right. */
  function LineStarts(s: string): (t: seq<nat>)
    ensures |t| >= 1 && t[0] == 0
    ensures forall k :: 0 <= k < |t| ==> t[k] <= |s|
    decreases |s|
  {
    if s == [] then [0]
    else if s[|s| - 1] == '\n' then LineStarts(s[..|s| - 1]) + [|s|]
    else LineStarts(s[..|s| - 1])
  }

  /** An independent description of a line-start table for `s`: it starts
      at 0, is strictly increasing, every later entry follows a "\n", and
      every "\n" is followed by an entry. */
  predicate IsLineTable(s: string, t: seq<nat>) {
    |t| >= 1 && t[0] == 0 && Increasing(t) && EntriesFollowNewlines(s, t) && NewlinesStartLines(s, t)
  }

  predicate Increasing(t: seq<nat>) {
    forall j, k :: 0 <= j < k < |t| ==> t[j] < t[k]
  }

  predicate EntriesFollowNewlines(s: string, t: seq<nat>) {
    forall k :: 0 < k < |t| ==> 0 < t[k] <= |s| && s[t[k] - 1] == '\n'
  }

  predicate NewlinesStartLines(s: string, t: seq<nat>) {
    forall p :: 0 <= p < |s| && s[p] == '\n' ==> p + 1 in t
  }

  /** Exclusive end of line `L`: the next line's start, or the length of the
      text on the last line. A line thus includes its own terminator. */
  function LineEnd(s: string, t: seq<nat>, L: nat): nat
    requires L < |t|
  {
    if L == |t| - 1 then |s| else t[L + 1]
  }

  /** Flat index `i` lies on (0-based) line `L`. */
  predicate OnLine(s: string, t: seq<nat>, i: int, L: int) {
    0 <= L < |t| && t[L] <= i < LineEnd(s, t, L)
  }

  /** The greatest table position whose start is at or before `i`. */
  function LastStartAtOrBefore(t: seq<nat>, i: int): (L: nat)
    requires |t| >= 1
    ensures L < |t|
    ensures t[0] <= i ==> t[L] <= i && forall k :: L < k < |t| ==> i < t[k]
    decreases |t|
  {
    if |t| == 1 || t[|t| - 1] <= i then |t| - 1
    else LastStartAtOrBefore(t[..|t| - 1], i)
  }

  /** The scanner's table is a line table. */
  lemma {:induction false} LineStartsIsLineTable(s: string)
    ensures IsLineTable(s, LineStarts(s))
    decreases |s|
  {
    if s != [] {
      var s', c := s[..|s| - 1], s[|s| - 1];
      assert s == s' + [c];
      LineStartsIsLineTable(s');
      if c == '\n' {
        ScanNewline(s');
      } else {
        ScanOther(s', c);
      }
    }
  }

  /** One step of the scan over a "\n": the entry just past it is added. */
  lemma ScanNewline(s': string)
    requires IsLineTable(s', LineStarts(s'))
    ensures IsLineTable(s' + "\n", LineStarts(s' + "\n"))
  {
  }

  /** One step of the scan over any other character: the table is kept. */
  lemma ScanOther(s': string, c: char)
    requires c != '\n'
    requires IsLineTable(s', LineStarts(s'))
    ensures IsLineTable(s' + [c], LineStarts(s' + [c]))
  {
  }

  /** The text has one line per "\n", plus one. */
  lemma {:induction false} LineCount(s: string)
    ensures |LineStarts(s)| == multiset(s)['\n'] + 1
    decreases |s|
  {
    if s != [] {
      var s' := s[..|s| - 1];
      LineCount(s');
      assert s == s' + [s[|s| - 1]];
      assert multiset(s) == multiset(s') + multiset([s[|s| - 1]]);
    }
  }

  /** A line table for `s` is unique: it is exactly the scanner's table. */
  lemma {:induction false} LineTableUnique(s: string, t: seq<nat>)
    requires IsLineTable(s, t)
    ensures t == LineStarts(s)
    decreases |s|
  {
    if |s| == 0 {
      assert t[|t| - 1] == 0;
      assert t == [0];
    } else if s[|s| - 1] == '\n' {
      var t' := DropLastLine(s, t);
      LineTableUnique(s[..|s| - 1], t');
    } else {
      KeepLines(s, t);
      LineTableUnique(s[..|s| - 1], t);
    }
  }

  /** A line table of a text ending in "\n" ends with the entry just past
      it; without that entry it is a line table of the shorter text. */
  lemma DropLastLine(s: string, t: seq<nat>) returns (t': seq<nat>)
    requires IsLineTable(s, t) && |s| > 0 && s[|s| - 1] == '\n'
    ensures t == t' + [|s|] && IsLineTable(s[..|s| - 1], t')
  {
    var n, s' := |s|, s[..|s| - 1];
    assert n in t;
    var m :| 0 <= m < |t| && t[m] == n;
    t' := t[..m];
    assert t == t' + [n];
    forall k | 0 < k < |t'| ensures 0 < t'[k] <= |s'| && s'[t'[k] - 1] == '\n' {
      assert t[k] < t[m];
    }
    forall p | 0 <= p < |s'| && s'[p] == '\n' ensures p + 1 in t' {
      assert s[p] == s'[p];
      var q :| 0 <= q < |t| && t[q] == p + 1;
      assert t'[q] == p + 1;
    }
  }

  /** A line table of a text not ending in "\n" is also one of the text
      without its last character. */
  lemma KeepLines(s: string, t: seq<nat>)
    requires IsLineTable(s, t) && |s| > 0 && s[|s| - 1] != '\n'
    ensures IsLineTable(s[..|s| - 1], t)
  {
  }

  /** In a line table every index of the text lies on exactly one line, and
      that line is the greatest start at or before the index. */
  lemma LineOfIndex(s: string, t: seq<nat>, i: int, L: int)
    requires IsLineTable(s, t) && 0 <= i < |s|
    ensures OnLine(s, t, i, LastStartAtOrBefore(t, i))
    ensures OnLine(s, t, i, L) <==> L == LastStartAtOrBefore(t, i)
  {
  }

  /** Appending text without a "\n" adds no entry to the table. */
  lemma {:induction false} AppendWithoutNewline(s: string, line: string)
    requires '\n' !in line
    ensures LineStarts(s + line) == LineStarts(s)
    decreases |line|
  {
    if line != [] {
      var n := |line|;
      assert (s + line)[..|s + line| - 1] == s + line[..n - 1];
      assert (s + line)[|s + line| - 1] == line[n - 1];
      assert line[n - 1] != '\n';
      assert LineStarts(s + line) == LineStarts(s + line[..n - 1]);
      assert '\n' !in line[..n - 1];
      AppendWithoutNewline(s, line[..n - 1]);
    } else {
      assert s + line == s;
    }
  }

  /** Appending a line and its terminator adds exactly one entry, the
      offset just past that terminator. */
  lemma AppendLine(s: string, line: string)
    requires '\n' !in line
    ensures LineStarts(s + line + "\n") == LineStarts(s) + [|s| + |line| + 1]
  {
    assert (s + line + "\n")[..|s + line + "\n"| - 1] == s + line;
    AppendWithoutNewline(s, line);
  }
}
