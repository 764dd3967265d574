/** Row-major grids. The generators fill a vertex list by visiting a grid row by row
    and, within a row, column by column; and they fill an index list by emitting the
    same fixed number of indices for every cell, visited in the same order. Points and
    Cells are those two sequences, defined the way the loops build them; PointAt and
    CellAt say where each element ends up: point (r, c) at r * cols + c, and entry j
    of cell (r, c) at r * (cols * size) + c * size + j.

    Positions and lengths are written with Mul, multiplication as repeated addition,
    which keeps every proof in this module linear; MulIsProduct connects it to `*`. */
module Grid {
  import opened Mesh

  /** a rows of b entries each: a * b. */
  function Mul(a: nat, b: nat): nat {
    if a == 0 then 0 else Mul(a - 1, b) + b
  }

  lemma {:induction false} MulIsProduct(a: nat, b: nat)
    ensures Mul(a, b) == a * b
  {
    if a > 0 {
      MulIsProduct(a - 1, b);
    }
  }

  /** Entry j of row `row` lies before the end of row `rows - 1`. */
  lemma {:induction false} MulBound(row: nat, rows: nat, b: nat, j: nat)
    requires row < rows && j < b
    ensures Mul(row, b) + j < Mul(rows, b)
  {
    if row < rows - 1 {
      MulBound(row, rows - 1, b, j);
    }
  }

  /** Division with remainder: a position before the end of row `rows - 1` is entry r
      of some row q. */
  lemma {:induction false} Split(rows: nat, b: nat, k: nat) returns (q: nat, r: nat)
    requires k < Mul(rows, b)
    ensures q < rows && r < b && k == Mul(q, b) + r
  {
    if k < Mul(rows - 1, b) {
      q, r := Split(rows - 1, b, k);
    } else {
      q, r := rows - 1, k - Mul(rows - 1, b);
    }
  }

  /** Element k of s is element k + 1 once s is put between a and b. */
  lemma Framed<T>(a: T, s: seq<T>, b: T, k: nat)
    requires k < |s|
    ensures k + 1 < |[a] + s + [b]| && ([a] + s + [b])[k + 1] == s[k]
  {
  }

  /** g gives `size` entries at every cell of a rows x cols grid. */
  ghost predicate Chunked<T>(rows: nat, cols: nat, size: nat, g: (nat, nat) -> seq<T>) {
    forall r: nat, c: nat :: r < rows && c < cols ==> |g(r, c)| == size
  }

  /** Points (row, 0) .. (row, cols - 1). */
  function PointRow<T>(row: nat, cols: nat, f: (nat, nat) -> T): (s: seq<T>)
    ensures |s| == cols
  {
    if cols == 0 then [] else PointRow(row, cols - 1, f) + [f(row, cols - 1)]
  }

  /** Point (row, col) is element col of its row. */
  lemma {:induction false} PointRowAt<T>(row: nat, cols: nat, f: (nat, nat) -> T, col: nat)
    requires col < cols
    ensures PointRow(row, cols, f)[col] == f(row, col)
  {
    var prefix := PointRow(row, cols - 1, f);
    assert PointRow(row, cols, f) == prefix + [f(row, cols - 1)];
    if col < cols - 1 {
      PointRowAt(row, cols - 1, f, col);
    }
  }

  /** Rows 0 .. rows - 1 of points, row after row. */
  function Points<T>(rows: nat, cols: nat, f: (nat, nat) -> T): (s: seq<T>)
    ensures |s| == Mul(rows, cols)
  {
    if rows == 0 then [] else Points(rows - 1, cols, f) + PointRow(rows - 1, cols, f)
  }

  /** Cells (row, 0) .. (row, cols - 1), their entries concatenated. */
  function CellRow<T>(row: nat, cols: nat, g: (nat, nat) -> seq<T>): seq<T> {
    if cols == 0 then [] else CellRow(row, cols - 1, g) + g(row, cols - 1)
  }

  /** Rows 0 .. rows - 1 of cells, row after row. */
  function Cells<T>(rows: nat, cols: nat, g: (nat, nat) -> seq<T>): seq<T> {
    if rows == 0 then [] else Cells(rows - 1, cols, g) + CellRow(rows - 1, cols, g)
  }

  /** A row of cells of `size` entries each holds cols * size entries. */
  lemma {:induction false} CellRowLength<T>(row: nat, cols: nat, size: nat, g: (nat, nat) -> seq<T>)
    requires Chunked(row + 1, cols, size, g)
    ensures |CellRow(row, cols, g)| == Mul(cols, size)
  {
    if cols > 0 {
      CellRowLength(row, cols - 1, size, g);
    }
  }

  /** A grid of cells of `size` entries each holds rows * (cols * size) entries. */
  lemma {:induction false} CellsLength<T>(rows: nat, cols: nat, size: nat, g: (nat, nat) -> seq<T>)
    requires Chunked(rows, cols, size, g)
    ensures |Cells(rows, cols, g)| == Mul(rows, Mul(cols, size))
  {
    if rows > 0 {
      CellsLength(rows - 1, cols, size, g);
      CellRowLength(rows - 1, cols, size, g);
    }
  }

  /** Point (row, col) is element row * cols + col. */
  lemma {:induction false} PointAt<T>(rows: nat, cols: nat, f: (nat, nat) -> T, row: nat, col: nat)
    requires row < rows && col < cols
    ensures Mul(row, cols) + col < |Points(rows, cols, f)|
    ensures Points(rows, cols, f)[Mul(row, cols) + col] == f(row, col)
  {
    var points := Points(rows, cols, f);
    var prefix := Points(rows - 1, cols, f);
    assert points == prefix + PointRow(rows - 1, cols, f);
    if row < rows - 1 {
      PointAt(rows - 1, cols, f, row, col);
      assert points[Mul(row, cols) + col] == prefix[Mul(row, cols) + col];
    } else {
      PointRowAt(row, cols, f, col);
      assert Mul(row, cols) + col == |prefix| + col;
    }
  }

  /** The four corners of the square with lower corner (row, col): (row, col),
      (row, col + 1), (row + 1, col + 1) and (row + 1, col). */
  lemma PointCorners<T>(rows: nat, cols: nat, f: (nat, nat) -> T, row: nat, col: nat)
    requires row + 1 < rows && col + 1 < cols
    ensures var points := Points(rows, cols, f);
      var start := Mul(row, cols) + col;
      start + cols + 1 < |points| &&
      points[start] == f(row, col) && points[start + 1] == f(row, col + 1) &&
      points[start + cols + 1] == f(row + 1, col + 1) && points[start + cols] == f(row + 1, col)
  {
    assert Mul(row + 1, cols) == Mul(row, cols) + cols;
    PointAt(rows, cols, f, row, col);
    PointAt(rows, cols, f, row, col + 1);
    PointAt(rows, cols, f, row + 1, col + 1);
    PointAt(rows, cols, f, row + 1, col);
  }

  /** Every element of Points is the point of some (row, col). */
  lemma PointsAt<T>(rows: nat, cols: nat, f: (nat, nat) -> T, k: nat) returns (row: nat, col: nat)
    requires k < |Points(rows, cols, f)|
    ensures row < rows && col < cols && k == Mul(row, cols) + col
    ensures Points(rows, cols, f)[k] == f(row, col)
  {
    row, col := Split(rows, cols, k);
    PointAt(rows, cols, f, row, col);
  }

  /** Entry j of cell (row, col) of a row is element col * size + j of the row. */
  lemma {:induction false} CellRowAt<T>(row: nat, cols: nat, size: nat, g: (nat, nat) -> seq<T>, col: nat, j: nat)
    requires Chunked(row + 1, cols, size, g) && col < cols && j < size
    ensures |CellRow(row, cols, g)| == Mul(cols, size)
    ensures Mul(col, size) + j < |CellRow(row, cols, g)|
    ensures CellRow(row, cols, g)[Mul(col, size) + j] == g(row, col)[j]
  {
    var cells := CellRow(row, cols, g);
    var prefix := CellRow(row, cols - 1, g);
    CellRowLength(row, cols, size, g);
    CellRowLength(row, cols - 1, size, g);
    assert cells == prefix + g(row, cols - 1);
    if col < cols - 1 {
      CellRowAt(row, cols - 1, size, g, col, j);
      assert cells[Mul(col, size) + j] == prefix[Mul(col, size) + j];
    } else {
      assert Mul(col, size) + j == |prefix| + j;
    }
  }

  /** Entry j of cell (row, col) is element row * (cols * size) + col * size + j. */
  lemma {:induction false} CellAt<T>(rows: nat, cols: nat, size: nat, g: (nat, nat) -> seq<T>, row: nat, col: nat, j: nat)
    requires Chunked(rows, cols, size, g) && row < rows && col < cols && j < size
    ensures |Cells(rows, cols, g)| == Mul(rows, Mul(cols, size))
    ensures Mul(row, Mul(cols, size)) + (Mul(col, size) + j) < |Cells(rows, cols, g)|
    ensures Cells(rows, cols, g)[Mul(row, Mul(cols, size)) + (Mul(col, size) + j)] == g(row, col)[j]
  {
    var cells := Cells(rows, cols, g);
    var prefix := Cells(rows - 1, cols, g);
    var last := CellRow(rows - 1, cols, g);
    var m := Mul(cols, size);
    var offset := Mul(col, size) + j;
    var k := Mul(row, m) + offset;
    assert |prefix| == Mul(rows - 1, m) by {
      CellsLength(rows - 1, cols, size, g);
    }
    assert |last| == m by {
      CellRowLength(rows - 1, cols, size, g);
    }
    assert cells == prefix + last;
    if row < rows - 1 {
      assert k < |prefix| && prefix[k] == g(row, col)[j] by {
        CellAt(rows - 1, cols, size, g, row, col, j);
      }
      assert cells[k] == prefix[k];
    } else {
      assert offset < |last| && last[offset] == g(row, col)[j] by {
        CellRowAt(rows - 1, cols, size, g, col, j);
      }
      assert cells[k] == last[offset];
    }
  }

  /** In a grid of six-entry cells `cols` cells wide, entry 0 of cell (row, col) is
      element 6 * (row * cols + col). */
  lemma CellBase(cols: nat, row: nat, col: nat)
    ensures Mul(row, Mul(cols, 6)) + Mul(col, 6) == 6 * (row * cols + col)
  {
    MulIsProduct(cols, 6);
    MulIsProduct(row, cols * 6);
    MulIsProduct(col, 6);
    assert row * (cols * 6) == 6 * (row * cols);
  }

  /** rows x cols six-entry cells hold 6 * cols * rows entries. */
  lemma CellCount(rows: nat, cols: nat)
    ensures Mul(rows, Mul(cols, 6)) == 6 * cols * rows
  {
    MulIsProduct(cols, 6);
    MulIsProduct(rows, cols * 6);
    assert rows * (cols * 6) == 6 * cols * rows;
  }

  /** Every element of Cells is entry j of some cell (row, col). */
  lemma CellsAt<T>(rows: nat, cols: nat, size: nat, g: (nat, nat) -> seq<T>, k: nat)
      returns (row: nat, col: nat, j: nat)
    requires Chunked(rows, cols, size, g) && k < |Cells(rows, cols, g)|
    ensures row < rows && col < cols && j < size
    ensures k == Mul(row, Mul(cols, size)) + (Mul(col, size) + j)
    ensures Cells(rows, cols, g)[k] == g(row, col)[j]
  {
    var offset;
    CellsLength(rows, cols, size, g);
    row, offset := Split(rows, Mul(cols, size), k);
    col, j := Split(cols, size, offset);
    CellAt(rows, cols, size, g, row, col, j);
  }

  /** When every cell of a row emits whole triangles satisfying p, so does the row. */
  lemma {:induction false} CellRowTriples<T>(row: nat, cols: nat, g: (nat, nat) -> seq<T>, p: (T, T, T) -> bool)
    requires forall c: nat :: c < cols ==> Triples(g(row, c), p)
    ensures Triples(CellRow(row, cols, g), p)
  {
    if cols > 0 {
      var prefix := CellRow(row, cols - 1, g);
      CellRowTriples(row, cols - 1, g, p);
      TriplesConcat(prefix, g(row, cols - 1), p);
      assert CellRow(row, cols, g) == prefix + g(row, cols - 1);
    }
  }

  /** When every cell emits whole triangles satisfying p, so does the whole grid. */
  lemma {:induction false} CellsTriples<T>(rows: nat, cols: nat, g: (nat, nat) -> seq<T>, p: (T, T, T) -> bool)
    requires forall r: nat, c: nat :: r < rows && c < cols ==> Triples(g(r, c), p)
    ensures Triples(Cells(rows, cols, g), p)
  {
    if rows > 0 {
      var prefix := Cells(rows - 1, cols, g);
      var last := CellRow(rows - 1, cols, g);
      CellsTriples(rows - 1, cols, g, p);
      CellRowTriples(rows - 1, cols, g, p);
      TriplesConcat(prefix, last, p);
      assert Cells(rows, cols, g) == prefix + last;
    }
  }
}
