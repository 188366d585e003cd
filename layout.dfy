/** The plain-text preview of a worksheet (18 rows of 5 problems, each problem
    left-aligned in a 16-character column) and the header sanitiser that
    builds the default file name of a saved worksheet. */
module Layout {
  import opened Problems
  import opened Worksheet

  /** The width of one preview column. */
  const CellWidth: nat := 16

  function Spaces(n: nat): (s: string)
    ensures |s| == n && forall i :: 0 <= i < n ==> s[i] == ' '
  {
    seq(n, _ => ' ')
  }

  /** Left alignment in a field of width w, as a "<w" format spec does it: the
      text unchanged, then spaces up to the width; a longer text is not cut. */
  function PadRight(s: string, w: nat): (r: string)
    ensures |r| == if |s| < w then w else |s|
    ensures r[..|s|] == s
    ensures forall i :: |s| <= i < |r| ==> r[i] == ' '
  {
    if |s| < w then s + Spaces(w - |s|) else s
  }

  // ---------------------------------------------------------------------------
  // The preview grid
  // ---------------------------------------------------------------------------

  /** The display texts of a worksheet's problems, in order: what the preview
      reads of each problem. */
  function Texts(problems: seq<Problem>): (ts: seq<string>)
    ensures |ts| == |problems| && forall i :: 0 <= i < |problems| ==> ts[i] == Text(problems[i])
  {
    seq(|problems|, i requires 0 <= i < |problems| => Text(problems[i]))
  }

  /** The column of worksheet position idx: the problem's text left-aligned in
      16 characters, or 16 spaces past the end of the list. */
  function Cell(texts: seq<string>, idx: nat): (c: string)
    ensures idx < |texts| ==>
      && |c| == (if |texts[idx]| <= CellWidth then CellWidth else |texts[idx]|)
      && c[..|texts[idx]|] == texts[idx]
      && forall i :: |texts[idx]| <= i < |c| ==> c[i] == ' '
    ensures idx >= |texts| ==> c == Spaces(CellWidth)
  {
    if idx < |texts| then PadRight(texts[idx], CellWidth) else Spaces(CellWidth)
  }

  /** The columns of positions lo .. hi - 1, side by side. */
  function Cells(texts: seq<string>, lo: nat, hi: nat): string
    requires lo <= hi
    decreases hi
  {
    if lo == hi then "" else Cells(texts, lo, hi - 1) + Cell(texts, hi - 1)
  }

  /** The columns of a range are those of its two halves, one after the other. */
  lemma {:induction false} CellsSplit(texts: seq<string>, lo: nat, mid: nat, hi: nat)
    requires lo <= mid <= hi
    ensures Cells(texts, lo, hi) == Cells(texts, lo, mid) + Cells(texts, mid, hi)
    decreases hi
  {
    if mid < hi {
      CellsSplit(texts, lo, mid, hi - 1);
      var a, b, c := Cells(texts, lo, mid), Cells(texts, mid, hi - 1), Cell(texts, hi - 1);
      assert Cells(texts, lo, hi) == (a + b) + c;
      assert Cells(texts, mid, hi) == b + c;
      assert (a + b) + c == a + (b + c);
    }
  }

  /** Every text fits in its column. */
  predicate Fits(texts: seq<string>)
  {
    forall k :: 0 <= k < |texts| ==> |texts[k]| <= CellWidth
  }

  /** When every text fits, a range of columns is 16 characters per position. */
  lemma {:induction false} CellsWidth(texts: seq<string>, lo: nat, hi: nat)
    requires lo <= hi && Fits(texts)
    ensures |Cells(texts, lo, hi)| == CellWidth * (hi - lo)
    decreases hi
  {
    if lo < hi {
      CellsWidth(texts, lo, hi - 1);
    }
  }

  /** When every text fits, position i of a range occupies exactly the 16
      characters from 16 * (i - lo) on. */
  lemma CellsColumn(texts: seq<string>, lo: nat, hi: nat, i: nat)
    requires lo <= i < hi && Fits(texts)
    ensures |Cells(texts, lo, hi)| == CellWidth * (hi - lo)
    ensures Cells(texts, lo, hi)[CellWidth * (i - lo)..CellWidth * (i - lo) + CellWidth] == Cell(texts, i)
  {
    CellsAround(texts, lo, hi, i);
    CellsWidth(texts, lo, i);
    CellsWidth(texts, lo, hi);
    CellFits(texts, i);
    MiddleSlice(Cells(texts, lo, i), Cell(texts, i), Cells(texts, i + 1, hi));
  }

  /** A range of columns is the part before position i, i's own column, and
      the part after it. */
  lemma CellsAround(texts: seq<string>, lo: nat, hi: nat, i: nat)
    requires lo <= i < hi
    ensures Cells(texts, lo, hi) == Cells(texts, lo, i) + (Cell(texts, i) + Cells(texts, i + 1, hi))
  {
    CellsSplit(texts, lo, i, hi);
    CellsSplit(texts, i, i + 1, hi);
    assert Cells(texts, i, i + 1) == Cell(texts, i);
  }

  /** With every text fitting, each cell is exactly one column wide. */
  lemma CellFits(texts: seq<string>, idx: nat)
    requires Fits(texts)
    ensures |Cell(texts, idx)| == CellWidth
  {
  }

  /** The piece between a prefix and a suffix is recovered by slicing. */
  lemma MiddleSlice(a: string, c: string, b: string)
    ensures (a + (c + b))[|a|..|a| + |c|] == c
  {
  }

  /** Row r of the preview: the columns of positions r * 5 .. r * 5 + 4. */
  function Row(texts: seq<string>, r: nat): string
  {
    Cells(texts, r * Cols, r * Cols + Cols)
  }

  /** The preview's problem rows of a worksheet, one per grid row. */
  method PreviewRows(problems: seq<Problem>) returns (rows: seq<string>)
    ensures |rows| == Rows
    ensures forall r :: 0 <= r < Rows ==> rows[r] == Row(Texts(problems), r)
  {
    rows := GridRows(Texts(problems));
  }

  /** The 18 grid rows over a list of texts. */
  method GridRows(texts: seq<string>) returns (rows: seq<string>)
    ensures |rows| == Rows
    ensures forall r :: 0 <= r < Rows ==> rows[r] == Row(texts, r)
  {
    rows := [];
    for row := 0 to Rows
      invariant |rows| == row
      invariant forall r :: 0 <= r < row ==> rows[r] == Row(texts, r)
    {
      var rowText := RowText(texts, row);
      rows := rows + [rowText];
    }
  }

  /** One row of the preview: the columns of positions row * 5 .. row * 5 + 4,
      each a problem's text or blank past the end of the list. */
  method RowText(texts: seq<string>, row: nat) returns (rowText: string)
    ensures rowText == Row(texts, row)
  {
    ghost var first := row * Cols;
    rowText := "";
    for col := 0 to Cols
      invariant rowText == Cells(texts, first, first + col)
    {
      var idx := row * Cols + col;
      var cell: string;
      if idx < |texts| {
        cell := PadRight(texts[idx], CellWidth);
      } else {
        cell := Spaces(CellWidth);
      }
      assert cell == Cell(texts, idx);
      rowText := rowText + cell;
    }
  }

  /** Rows joined one after another. */
  function Concat(rows: seq<string>): string
  {
    if rows == [] then "" else Concat(rows[..|rows| - 1]) + rows[|rows| - 1]
  }

  /** Read row by row, the first n rows show positions 0 .. 5n - 1 once each
      and in order. */
  lemma {:induction false} RowsInOrder(texts: seq<string>, rows: seq<string>, n: nat)
    requires n <= |rows|
    requires forall r :: 0 <= r < |rows| ==> rows[r] == Row(texts, r)
    ensures Concat(rows[..n]) == Cells(texts, 0, n * Cols)
    decreases n
  {
    if n > 0 {
      RowsInOrder(texts, rows, n - 1);
      ConcatPrefix(rows, n);
      assert rows[n - 1] == Row(texts, n - 1);
      CellsRows(texts, n);
    }
  }

  /** The columns of the first n rows are those of the first n - 1 rows, then
      row n - 1. */
  lemma CellsRows(texts: seq<string>, n: nat)
    requires n > 0
    ensures Cells(texts, 0, n * Cols) == Cells(texts, 0, (n - 1) * Cols) + Row(texts, n - 1)
  {
    var m := (n - 1) * Cols;
    assert m + Cols == n * Cols;
    CellsSplit(texts, 0, m, m + Cols);
  }

  /** The first n rows joined are the first n - 1 joined, then row n - 1. */
  lemma ConcatPrefix(rows: seq<string>, n: nat)
    requires 0 < n <= |rows|
    ensures Concat(rows[..n]) == Concat(rows[..n - 1]) + rows[n - 1]
  {
    assert rows[..n][..n - 1] == rows[..n - 1];
  }

  /** Grid position (row, col) with col < 5 is worksheet position row * 5 + col,
      and every position has exactly one grid position. */
  lemma GridIndex(idx: nat, row: nat, col: nat)
    ensures idx == row * Cols + col && col < Cols <==> row == idx / Cols && col == idx % Cols
  {
  }

  /** Where problem idx appears in the preview: row idx / 5, from character
      16 * (idx % 5) on, when every text fits in its column. */
  lemma PreviewPosition(texts: seq<string>, rows: seq<string>, idx: nat)
    requires |rows| == Rows && Fits(texts) && idx < TotalProblems
    requires forall r :: 0 <= r < Rows ==> rows[r] == Row(texts, r)
    ensures |rows[idx / Cols]| == CellWidth * Cols
    ensures rows[idx / Cols][CellWidth * (idx % Cols)..CellWidth * (idx % Cols) + CellWidth] == Cell(texts, idx)
  {
    GridPosition(idx);
    RowOfRows(texts, rows, idx / Cols, idx % Cols, idx);
  }

  /** Column col of rows[row] holds the cell of position idx = row * 5 + col. */
  lemma RowOfRows(texts: seq<string>, rows: seq<string>, row: nat, col: nat, idx: nat)
    requires |rows| == Rows && row < Rows && col < Cols && Fits(texts) && idx == row * Cols + col
    requires forall r :: 0 <= r < Rows ==> rows[r] == Row(texts, r)
    ensures |rows[row]| == CellWidth * Cols
    ensures rows[row][CellWidth * col..CellWidth * col + CellWidth] == Cell(texts, idx)
  {
    var line := rows[row];
    assert line == Row(texts, row);
    RowCell(texts, row, col, idx);
  }

  /** Column col of row `row` holds the cell of position idx = row * 5 + col. */
  lemma RowCell(texts: seq<string>, row: nat, col: nat, idx: nat)
    requires col < Cols && Fits(texts) && idx == row * Cols + col
    ensures |Row(texts, row)| == CellWidth * Cols
    ensures Row(texts, row)[CellWidth * col..CellWidth * col + CellWidth] == Cell(texts, idx)
  {
    var lo := row * Cols;
    assert Row(texts, row) == Cells(texts, lo, lo + Cols);
    CellInRow(texts, lo, col, idx);
  }

  /** A worksheet position falls in one of the 18 rows, at column idx % 5. */
  lemma GridPosition(idx: nat)
    requires idx < TotalProblems
    ensures idx / Cols < Rows && idx % Cols < Cols
    ensures idx == idx / Cols * Cols + idx % Cols
  {
  }

  /** Cell idx = lo + col sits at column col of the line of cells lo .. lo + 4. */
  lemma CellInRow(texts: seq<string>, lo: nat, col: nat, idx: nat)
    requires col < Cols && Fits(texts) && idx == lo + col
    ensures |Cells(texts, lo, lo + Cols)| == CellWidth * Cols
    ensures Cells(texts, lo, lo + Cols)[CellWidth * col..CellWidth * col + CellWidth] == Cell(texts, idx)
  {
    CellsColumn(texts, lo, lo + Cols, idx);
    assert idx - lo == col;
  }

  /** On a preview whose texts all fit, text idx starts at character
      16 * (idx % 5) of row idx / 5 and is followed by spaces up to the next
      column. (PreviewRows builds the rows over Texts(problems), whose text
      idx is problem idx's.) */
  lemma PreviewShowsText(texts: seq<string>, rows: seq<string>, idx: nat)
    requires |rows| == Rows && idx < |texts| && idx < TotalProblems && Fits(texts)
    requires forall r :: 0 <= r < Rows ==> rows[r] == Row(texts, r)
    ensures var row, col, t := rows[idx / Cols], CellWidth * (idx % Cols), texts[idx];
      && col + CellWidth <= |row|
      && row[col..col + |t|] == t
      && forall i :: col + |t| <= i < col + CellWidth ==> row[i] == ' '
  {
    PreviewPosition(texts, rows, idx);
    var row, col, cell := rows[idx / Cols], CellWidth * (idx % Cols), Cell(texts, idx);
    ColumnShows(row, col, cell, texts[idx]);
  }

  /** Texts that fit one by one fit as a list. */
  lemma TextsFit(problems: seq<Problem>)
    requires forall k :: 0 <= k < |problems| ==> |Text(problems[k])| <= CellWidth
    ensures Fits(Texts(problems))
  {
  }

  /** In the preview rows of a worksheet whose problem texts are at most 16
      characters, problem idx's text starts at character 16 * (idx % 5) of row
      idx / 5 and is followed by spaces up to the next column. */
  lemma PreviewShowsProblem(problems: seq<Problem>, rows: seq<string>, idx: nat)
    requires |rows| == Rows && idx < |problems| && idx < TotalProblems
    requires forall r :: 0 <= r < Rows ==> rows[r] == Row(Texts(problems), r)
    requires forall k :: 0 <= k < |problems| ==> |Text(problems[k])| <= CellWidth
    ensures var row, col, t := rows[idx / Cols], CellWidth * (idx % Cols), Text(problems[idx]);
      && col + CellWidth <= |row|
      && row[col..col + |t|] == t
      && forall i :: col + |t| <= i < col + CellWidth ==> row[i] == ' '
  {
    TextsFit(problems);
    PreviewShowsText(Texts(problems), rows, idx);
  }

  /** A column of a row that holds t padded with spaces shows t, then spaces. */
  lemma ColumnShows(row: string, col: nat, cell: string, t: string)
    requires col + CellWidth <= |row| && row[col..col + CellWidth] == cell
    requires |t| <= |cell| && cell[..|t|] == t && forall i :: |t| <= i < |cell| ==> cell[i] == ' '
    ensures row[col..col + |t|] == t
    ensures forall i :: col + |t| <= i < col + CellWidth ==> row[i] == ' '
  {
    assert row[col..col + |t|] == cell[..|t|];
    forall i | col + |t| <= i < col + CellWidth
      ensures row[i] == ' '
    {
      assert row[i] == cell[i - col];
    }
  }

  // ---------------------------------------------------------------------------
  // The header sanitiser
  // ---------------------------------------------------------------------------

  /** The characters str.isspace accepts. */
  predicate IsSpace(c: char)
  {
    || c == ' ' || '\t' <= c <= '\r' || '\U{1c}' <= c <= '\U{1f}'
    || c == '\U{85}' || c == '\U{a0}' || c == '\U{1680}' || '\U{2000}' <= c <= '\U{200a}'
    || c == '\U{2028}' || c == '\U{2029}' || c == '\U{202f}' || c == '\U{205f}' || c == '\U{3000}'
  }

  /** A character the sanitiser keeps: alphanumeric (as the given isalnum
      decides), space, '-' or '_'. */
  predicate Allowed(isAlnum: char -> bool, c: char)
  {
    isAlnum(c) || c == ' ' || c == '-' || c == '_'
  }

  /** The allowed characters of s, in order. */
  function Keep(isAlnum: char -> bool, s: string): (r: string)
    ensures |r| <= |s|
    ensures forall i :: 0 <= i < |r| ==> Allowed(isAlnum, r[i])
    ensures forall c :: c in s && Allowed(isAlnum, c) ==> c in r
  {
    if s == [] then []
    else
      var rest := Keep(isAlnum, s[..|s| - 1]);
      var c := s[|s| - 1];
      assert s == s[..|s| - 1] + [c];
      if Allowed(isAlnum, c) then rest + [c] else rest
  }

  /** The filter keeps every allowed character as often as it occurs and
      drops every other one. */
  lemma {:induction false} KeepCounts(isAlnum: char -> bool, s: string)
    ensures forall c :: multiset(Keep(isAlnum, s))[c] == if Allowed(isAlnum, c) then multiset(s)[c] else 0
  {
    if s != [] {
      var front, c := s[..|s| - 1], s[|s| - 1];
      KeepCounts(isAlnum, front);
      assert s == front + [c];
      assert multiset(s) == multiset(front) + multiset{c};
    }
  }

  /** The filter works character by character, keeping the order: filtering
      s + t is filtering s, then filtering t. */
  lemma {:induction false} KeepAppend(isAlnum: char -> bool, s: string, t: string)
    ensures Keep(isAlnum, s + t) == Keep(isAlnum, s) + Keep(isAlnum, t)
    decreases |t|
  {
    if t == [] {
      assert s + t == s;
    } else {
      var front, c := t[..|t| - 1], t[|t| - 1];
      SplitLast(s, t);
      KeepAppend(isAlnum, s, front);
      KeepSnoc(isAlnum, s + front, c);
      KeepSnoc(isAlnum, front, c);
      ConcatAssoc(Keep(isAlnum, s), Keep(isAlnum, front), if Allowed(isAlnum, c) then [c] else []);
    }
  }

  /** A non-empty t is its front followed by its last character, also after s. */
  lemma SplitLast(s: string, t: string)
    requires |t| > 0
    ensures t == t[..|t| - 1] + [t[|t| - 1]]
    ensures s + t == (s + t[..|t| - 1]) + [t[|t| - 1]]
  {
  }

  lemma ConcatAssoc(a: string, b: string, c: string)
    ensures (a + b) + c == a + (b + c)
  {
  }

  /** One more character is kept at the end exactly when it is allowed. */
  lemma KeepSnoc(isAlnum: char -> bool, s: string, c: char)
    ensures Keep(isAlnum, s + [c]) == Keep(isAlnum, s) + if Allowed(isAlnum, c) then [c] else []
  {
    assert (s + [c])[..|s|] == s;
  }

  /** A string of allowed characters passes the filter unchanged. */
  lemma {:induction false} KeepAllowed(isAlnum: char -> bool, s: string)
    requires forall i :: 0 <= i < |s| ==> Allowed(isAlnum, s[i])
    ensures Keep(isAlnum, s) == s
  {
    if s != [] {
      KeepAllowed(isAlnum, s[..|s| - 1]);
    }
  }

  /** The first position at or after i that does not hold whitespace, or |s|. */
  function SkipSpaces(s: string, i: nat): (k: nat)
    requires i <= |s|
    ensures i <= k <= |s|
    ensures forall j :: i <= j < k ==> IsSpace(s[j])
    ensures k < |s| ==> !IsSpace(s[k])
    decreases |s| - i
  {
    if i < |s| && IsSpace(s[i]) then SkipSpaces(s, i + 1) else i
  }

  /** The end of s[..j] once its trailing whitespace is gone. */
  function SkipSpacesBack(s: string, j: nat): (k: nat)
    requires j <= |s|
    ensures k <= j
    ensures forall i :: k <= i < j ==> IsSpace(s[i])
    ensures k > 0 ==> !IsSpace(s[k - 1])
  {
    if j > 0 && IsSpace(s[j - 1]) then SkipSpacesBack(s, j - 1) else j
  }

  /** s without its leading whitespace. */
  function StripLeft(s: string): (r: string)
    ensures |r| <= |s| && r == s[|s| - |r|..]
    ensures forall i :: 0 <= i < |s| - |r| ==> IsSpace(s[i])
    ensures |r| > 0 ==> !IsSpace(r[0])
  {
    s[SkipSpaces(s, 0)..]
  }

  /** s without its trailing whitespace. */
  function StripRight(s: string): (r: string)
    ensures |r| <= |s| && r == s[..|r|]
    ensures forall i :: |r| <= i < |s| ==> IsSpace(s[i])
    ensures |r| > 0 ==> !IsSpace(r[|r| - 1])
  {
    s[..SkipSpacesBack(s, |s|)]
  }

  /** str.strip() with no argument: the slice of s that remains once the
      leading and the trailing whitespace are gone. */
  function Strip(s: string): (r: string)
    ensures |r| > 0 ==> !IsSpace(r[0]) && !IsSpace(r[|r| - 1])
    ensures var start := |s| - |StripLeft(s)|;
      start + |r| <= |s| && r == s[start..start + |r|]
  {
    var left := StripLeft(s);
    var r := StripRight(left);
    TrimmedInside(s, left, r);
    r
  }

  /** A prefix r of a suffix left of s is a slice of s, and starts where left
      starts. */
  lemma TrimmedInside(s: string, left: string, r: string)
    requires |left| <= |s| && left == s[|s| - |left|..]
    requires |left| > 0 ==> !IsSpace(left[0])
    requires |r| <= |left| && r == left[..|r|]
    ensures |r| > 0 ==> !IsSpace(r[0])
    ensures |s| - |left| + |r| <= |s| && r == s[|s| - |left|..|s| - |left| + |r|]
  {
  }

  /** r is the slice of s from start on, and everything of s before and
      after that slice is whitespace. */
  predicate SliceBetweenSpaces(s: string, start: nat, r: string)
  {
    && start + |r| <= |s| && r == s[start..start + |r|]
    && (forall i :: 0 <= i < start ==> IsSpace(s[i]))
    && (forall i :: start + |r| <= i < |s| ==> IsSpace(s[i]))
  }

  /** What the strip drops, before and after the slice it keeps, is whitespace. */
  lemma {:induction false} StripDropsSpaces(s: string)
    ensures SliceBetweenSpaces(s, |s| - |StripLeft(s)|, Strip(s))
  {
    var left, r := StripLeft(s), Strip(s);
    assert r == StripRight(left);
    TrimmedSlice(s, left, r);
  }

  /** Trimming whitespace off the front of s and then off the back of what is
      left leaves a slice of s between whitespace. */
  lemma TrimmedSlice(s: string, left: string, r: string)
    requires |left| <= |s| && left == s[|s| - |left|..]
    requires forall i :: 0 <= i < |s| - |left| ==> IsSpace(s[i])
    requires |r| <= |left| && r == left[..|r|]
    requires forall j :: |r| <= j < |left| ==> IsSpace(left[j])
    ensures SliceBetweenSpaces(s, |s| - |left|, r)
  {
    var start := |s| - |left|;
    forall i | start + |r| <= i < |s|
      ensures IsSpace(s[i])
    {
      assert s[i] == left[i - start];
    }
    assert r == s[start..start + |r|];
  }

  /** A string without leading or trailing whitespace is its own strip. */
  lemma StripStripped(s: string)
    requires |s| > 0 ==> !IsSpace(s[0]) && !IsSpace(s[|s| - 1])
    ensures Strip(s) == s
  {
    assert SkipSpaces(s, 0) == 0;
    assert StripLeft(s) == s;
    assert SkipSpacesBack(s, |s|) == |s|;
    assert StripRight(s) == s;
  }

  /** The header as the default file name uses it: its alphanumerics, spaces,
      '-' and '_', without leading or trailing whitespace. */
  function Sanitize(isAlnum: char -> bool, header: string): (r: string)
    ensures |r| <= |header|
    ensures forall i :: 0 <= i < |r| ==> Allowed(isAlnum, r[i])
    ensures |r| > 0 ==> !IsSpace(r[0]) && !IsSpace(r[|r| - 1])
  {
    var kept := Keep(isAlnum, header);
    var start := |kept| - |StripLeft(kept)|;
    SliceAllowed(isAlnum, kept, start, start + |Strip(kept)|);
    Strip(kept)
  }

  /** A slice of a string of allowed characters holds only allowed characters. */
  lemma SliceAllowed(isAlnum: char -> bool, s: string, lo: nat, hi: nat)
    requires lo <= hi <= |s|
    requires forall i :: 0 <= i < |s| ==> Allowed(isAlnum, s[i])
    ensures forall i :: 0 <= i < hi - lo ==> Allowed(isAlnum, s[lo..hi][i])
  {
    forall i | 0 <= i < hi - lo
      ensures Allowed(isAlnum, s[lo..hi][i])
    {
      assert s[lo..hi][i] == s[lo + i];
    }
  }

  /** The sanitised header is the run of kept characters that remains once
      only whitespace is dropped from either end of the filtered header. */
  lemma {:induction false} SanitizeKeeps(isAlnum: char -> bool, header: string)
    ensures var kept := Keep(isAlnum, header);
      SliceBetweenSpaces(kept, |kept| - |StripLeft(kept)|, Sanitize(isAlnum, header))
  {
    SanitizeStrips(isAlnum, header);
    StripResult(Keep(isAlnum, header), Sanitize(isAlnum, header));
  }

  /** Any name for the strip of s is a slice of s between whitespace. */
  lemma StripResult(s: string, r: string)
    requires r == Strip(s)
    ensures SliceBetweenSpaces(s, |s| - |StripLeft(s)|, r)
  {
    StripDropsSpaces(s);
  }

  lemma SanitizeStrips(isAlnum: char -> bool, header: string)
    ensures Sanitize(isAlnum, header) == Strip(Keep(isAlnum, header))
  {
  }

  /** Sanitising an already sanitised header changes nothing. */
  lemma SanitizeIdempotent(isAlnum: char -> bool, header: string)
    ensures Sanitize(isAlnum, Sanitize(isAlnum, header)) == Sanitize(isAlnum, header)
  {
    var s := Sanitize(isAlnum, header);
    KeepAllowed(isAlnum, s);
    assert Keep(isAlnum, s) == s;
    StripStripped(s);
    assert Sanitize(isAlnum, s) == Strip(s);
  }
}
