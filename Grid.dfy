/** The frame grid of a sprite sheet: a `w` by `h` texture cut into cells of
    `fw` by `fh`, visited row by row (y outer, x inner) starting at the top
    left corner. Cells at the right and bottom edges may be partial, so
    there are ceil(w/fw) columns and ceil(h/fh) rows. Both engine
    animators build their frame lists from these origins. */
module Grid {

  /** The scan loops stop: a row is only walked when it has a positive
      width, and rows are only stepped when the height is positive. */
  predicate Finite(w: int, h: int, fw: int, fh: int)
  {
    (h > 0 ==> fh > 0) && (h > 0 && w > 0 ==> fw > 0)
  }

  /** The number of steps of `b` from 0 that stay below `a`: ceil(a/b) for a
      positive `a`, else 0. */
  function Steps(a: int, b: int): nat
    requires a > 0 ==> b > 0
    decreases if a > 0 then a else 0
  {
    if a <= 0 then 0 else 1 + Steps(a - b, b)
  }

  /** The step count is the rounded-up quotient: `Steps(a, b)` steps of `b`
      reach `a`, one fewer do not. */
  lemma {:induction false} StepsIsCeiling(a: int, b: int)
    requires a > 0 && b > 0
    ensures (Steps(a, b) - 1) * b < a <= Steps(a, b) * b
    decreases a
  {
    var n := Steps(a - b, b);
    if a - b > 0 {
      StepsIsCeiling(a - b, b);
      assert (n + 1) * b == n * b + b && n * b == (n - 1) * b + b;
    }
  }

  /** The cell origins of one row, from column position `x` on. */
  function RowFrom(w: int, fw: int, x: int, y: int): seq<(int, int)>
    requires x < w ==> fw > 0
    decreases if x < w then w - x else 0
  {
    if x >= w then [] else [(x, y)] + RowFrom(w, fw, x + fw, y)
  }

  /** The cell origins of the rows from row position `y` on. */
  function RowsFrom(w: int, h: int, fw: int, fh: int, y: int): seq<(int, int)>
    requires Finite(w, h, fw, fh) && y >= 0
    decreases if y < h then h - y else 0
  {
    if y >= h then [] else RowFrom(w, fw, 0, y) + RowsFrom(w, h, fw, fh, y + fh)
  }

  /** Every origin of `s` lies in the `w` by `h` sheet, at or below row
      position `y`. */
  predicate InSheet(w: int, h: int, y: int, s: seq<(int, int)>)
  {
    forall k :: 0 <= k < |s| ==> 0 <= s[k].0 < w && y <= s[k].1 < h
  }

  lemma {:induction false} RowInSheet(w: int, fw: int, x: int, y: int)
    requires x >= 0 && (x < w ==> fw > 0)
    ensures forall k :: 0 <= k < |RowFrom(w, fw, x, y)| ==>
      x <= RowFrom(w, fw, x, y)[k].0 < w && RowFrom(w, fw, x, y)[k].1 == y
    decreases if x < w then w - x else 0
  {
    if x < w {
      RowInSheet(w, fw, x + fw, y);
    }
  }

  lemma {:induction false} RowsInSheet(w: int, h: int, fw: int, fh: int, y: int)
    requires Finite(w, h, fw, fh) && y >= 0
    ensures InSheet(w, h, y, RowsFrom(w, h, fw, fh, y))
    decreases if y < h then h - y else 0
  {
    if y < h {
      var row := RowFrom(w, fw, 0, y);
      RowInSheet(w, fw, 0, y);
      assert InSheet(w, h, y, row);
      RowsInSheet(w, h, fw, fh, y + fh);
      InSheetConcat(w, h, y, row, y + fh, RowsFrom(w, h, fw, fh, y + fh));
    }
  }

  /** Origins at or below `y` followed by origins at or below a lower row
      position all lie at or below `y`. */
  lemma InSheetConcat(w: int, h: int, y: int, a: seq<(int, int)>, y2: int, b: seq<(int, int)>)
    requires y <= y2 && InSheet(w, h, y, a) && InSheet(w, h, y2, b)
    ensures InSheet(w, h, y, a + b)
  {
    forall k | 0 <= k < |a + b| ensures 0 <= (a + b)[k].0 < w && y <= (a + b)[k].1 < h {
      if k >= |a| {
        assert (a + b)[k] == b[k - |a|];
      }
    }
  }

  /** All cell origins in scan order; every one lies inside the sheet. */
  function Origins(w: int, h: int, fw: int, fh: int): (r: seq<(int, int)>)
    requires Finite(w, h, fw, fh)
    ensures InSheet(w, h, 0, r)
  {
    RowsInSheet(w, h, fw, fh, 0);
    RowsFrom(w, h, fw, fh, 0)
  }

  /** One step along a row: taking the cell at `x` off the front of the
      rest of the row moves it to the end of what has been emitted. */
  lemma ScanCell(before: seq<(int, int)>, w: int, fw: int, x: int, y: int)
    requires fw > 0 && x < w
    ensures before + RowFrom(w, fw, x, y) == (before + [(x, y)]) + RowFrom(w, fw, x + fw, y)
  {
    assert RowFrom(w, fw, x, y) == [(x, y)] + RowFrom(w, fw, x + fw, y);
  }

  /** One step down the sheet: the rows from `y` are row `y` followed by
      the rows after it. */
  lemma ScanRow(before: seq<(int, int)>, w: int, h: int, fw: int, fh: int, y: int)
    requires Finite(w, h, fw, fh) && 0 <= y < h
    ensures before + RowsFrom(w, h, fw, fh, y) == (before + RowFrom(w, fw, 0, y)) + RowsFrom(w, h, fw, fh, y + fh)
  {
  }

  /** A row from `x` has ceil((w-x)/fw) cells, the k-th at `x + k*fw`. */
  lemma {:induction false} RowShape(w: int, fw: int, x: int, y: int)
    requires fw > 0
    ensures |RowFrom(w, fw, x, y)| == Steps(w - x, fw)
    ensures forall k :: 0 <= k < |RowFrom(w, fw, x, y)| ==> RowFrom(w, fw, x, y)[k] == (x + k * fw, y)
    decreases if x < w then w - x else 0
  {
    if x < w {
      RowShape(w, fw, x + fw, y);
      var rest := RowFrom(w, fw, x + fw, y);
      forall k | 0 <= k < |RowFrom(w, fw, x, y)|
        ensures RowFrom(w, fw, x, y)[k] == (x + k * fw, y)
      {
        if k > 0 {
          assert RowFrom(w, fw, x, y)[k] == rest[k - 1];
          assert x + fw + (k - 1) * fw == x + k * fw;
        }
      }
    }
  }

  lemma MulLe(a: nat, b: nat, k: nat)
    requires a <= b
    ensures a * k <= b * k
  {
    assert b * k == a * k + (b - a) * k;
  }

  /** In `row + rest` with rows of `cols` cells, cell `c` of row `r >= 1`
      is cell `c` of row `r - 1` of `rest`. */
  lemma LaterRowIndex(row: seq<(int, int)>, rest: seq<(int, int)>, cols: nat, n: nat, r: nat, c: nat)
    requires |row| == cols && |rest| == n * cols
    requires 1 <= r <= n && c < cols
    ensures (r - 1) * cols + c < |rest|
    ensures r * cols + c == cols + ((r - 1) * cols + c)
    ensures (row + rest)[r * cols + c] == rest[(r - 1) * cols + c]
  {
    MulLe(r, n, cols);
    assert r * cols == (r - 1) * cols + cols;
  }

  /** Cell `r*cols + c` of `s` exists and is at column `c` of row `r`,
      counting rows from the row position `y`. */
  predicate CellAt(s: seq<(int, int)>, cols: nat, fw: int, fh: int, y: int, r: nat, c: nat)
  {
    r * cols + c < |s| && s[r * cols + c] == (c * fw, y + r * fh)
  }

  /** `s` lists a grid of `rows` rows of `cols` cells in row-major order. */
  predicate RowMajor(s: seq<(int, int)>, rows: nat, cols: nat, fw: int, fh: int, y: int)
  {
    forall r: nat, c: nat :: r < rows && c < cols ==> CellAt(s, cols, fw, fh, y, r, c)
  }

  /** The rows from `y` on hold `rows * cols` cells. */
  lemma {:induction false} RowsLength(w: int, h: int, fw: int, fh: int, y: int)
    requires fw > 0 && fh > 0 && y >= 0
    ensures |RowsFrom(w, h, fw, fh, y)| == Steps(h - y, fh) * Steps(w, fw)
    decreases if y < h then h - y else 0
  {
    if y < h {
      RowsLength(w, h, fw, fh, y + fh);
      RowShape(w, fw, 0, y);
      var n := Steps(h - y - fh, fh);
      assert (1 + n) * Steps(w, fw) == Steps(w, fw) + n * Steps(w, fw);
    }
  }

  /** Cell `r*cols + c` of the rows from `y` on sits at column `c` of the
      r-th of these rows. */
  lemma {:induction false} RowsCell(w: int, h: int, fw: int, fh: int, y: int, r: nat, c: nat)
    requires fw > 0 && fh > 0 && y >= 0
    requires r < Steps(h - y, fh) && c < Steps(w, fw)
    ensures CellAt(RowsFrom(w, h, fw, fh, y), Steps(w, fw), fw, fh, y, r, c)
    decreases r
  {
    if r == 0 {
      FirstRowCell(w, h, fw, fh, y, c);
    } else {
      var cols := Steps(w, fw);
      var row := RowFrom(w, fw, 0, y);
      var rest := RowsFrom(w, h, fw, fh, y + fh);
      var n := Steps(h - (y + fh), fh);
      assert Steps(h - y, fh) == 1 + n;
      assert RowsFrom(w, h, fw, fh, y) == row + rest;
      RowShape(w, fw, 0, y);
      RowsLength(w, h, fw, fh, y + fh);
      RowsCell(w, h, fw, fh, y + fh, r - 1, c);
      LaterRowCell(row, rest, cols, n, fw, fh, y, r, c);
    }
  }

  /** Cell `c` of the rows from `y` on is cell `c` of the first row. */
  lemma FirstRowCell(w: int, h: int, fw: int, fh: int, y: int, c: nat)
    requires fw > 0 && fh > 0 && 0 <= y < h && c < Steps(w, fw)
    ensures CellAt(RowsFrom(w, h, fw, fh, y), Steps(w, fw), fw, fh, y, 0, c)
  {
    var row := RowFrom(w, fw, 0, y);
    var rest := RowsFrom(w, h, fw, fh, y + fh);
    assert RowsFrom(w, h, fw, fh, y) == row + rest;
    RowShape(w, fw, 0, y);
    assert 0 * Steps(w, fw) + c == c && y + 0 * fh == y;
    assert (row + rest)[c] == row[c];
  }

  /** A cell of the rows below the first row, seen from the first row. */
  lemma LaterRowCell(row: seq<(int, int)>, rest: seq<(int, int)>, cols: nat, n: nat,
                     fw: int, fh: int, y: int, r: nat, c: nat)
    requires |row| == cols && |rest| == n * cols && 1 <= r <= n && c < cols
    requires CellAt(rest, cols, fw, fh, y + fh, r - 1, c)
    ensures CellAt(row + rest, cols, fw, fh, y, r, c)
  {
    LaterRowIndex(row, rest, cols, n, r, c);
    assert y + fh + (r - 1) * fh == y + r * fh;
  }

  lemma RowsRowMajor(w: int, h: int, fw: int, fh: int, y: int)
    requires fw > 0 && fh > 0 && y >= 0
    ensures RowMajor(RowsFrom(w, h, fw, fh, y), Steps(h - y, fh), Steps(w, fw), fw, fh, y)
  {
    forall r: nat, c: nat | r < Steps(h - y, fh) && c < Steps(w, fw)
      ensures CellAt(RowsFrom(w, h, fw, fh, y), Steps(w, fw), fw, fh, y, r, c)
    {
      RowsCell(w, h, fw, fh, y, r, c);
    }
  }

  /** The whole grid: ceil(h/fh) rows of ceil(w/fw) cells, row-major, cell
      `r*cols + c` at `(c*fw, r*fh)`. */
  lemma OriginsShape(w: int, h: int, fw: int, fh: int)
    requires fw > 0 && fh > 0
    ensures |Origins(w, h, fw, fh)| == Steps(h, fh) * Steps(w, fw)
    ensures RowMajor(Origins(w, h, fw, fh), Steps(h, fh), Steps(w, fw), fw, fh, 0)
  {
    RowsLength(w, h, fw, fh, 0);
    RowsRowMajor(w, h, fw, fh, 0);
  }
}
