// Triangle indices for a rows x cols mesh of texture points (src/utils/SkMeshUtils.cpp):
// each interior cell gives two triangles over the points numbered row by row,
// stored as 16-bit indices.
module MeshUtils {
  import opened Wrappers
  import opened Ints

  /**
   * The first point of cell `cell` when cells run `r` to a line and points
   * `r + 1` to a line: each completed line moves one point further than its
   * cells.
   */
  function CellOrigin(r: int, cell: int): (p: int)
    requires r >= 1 && cell >= 0
    ensures p >= cell
    decreases cell
  {
    if cell < r then cell else CellOrigin(r, cell - r) + r + 1
  }

  /** Corner `j` of the cell starting at point `i`: (i, i+r+1, i+1) then (i+1, i+r+1, i+r+2). */
  function CornerValue(i: int, r: int, j: int): int {
    if j == 0 then i
    else if j == 1 then i + r + 1
    else if j == 2 then i + 1
    else if j == 3 then i + 1
    else if j == 4 then i + r + 1
    else i + r + 2
  }

  /** The index at position `k` of the index array, before truncation. */
  function Corner(r: int, k: int): int
    requires r >= 1 && k >= 0
  {
    CornerValue(CellOrigin(r, k / 6), r, k % 6)
  }

  /** Cell `r*y + x` starts at point `y*(r+1) + x`. */
  lemma {:induction false} LineCell(r: int, y: int, x: int)
    requires r >= 1 && y >= 0 && 0 <= x < r
    ensures r * y + x >= 0 && CellOrigin(r, r * y + x) == y * (r + 1) + x
    decreases y
  {
    if y > 0 {
      LineCell(r, y - 1, x);
      assert r * y + x - r == r * (y - 1) + x;
      assert y * (r + 1) == (y - 1) * (r + 1) + r + 1;
    }
  }

  /** Within the first `c` lines a cell starts at least two points before the end of line `c`. */
  lemma {:induction false} OriginBound(r: int, c: int, cell: int)
    requires r >= 1 && c >= 1 && 0 <= cell < r * c
    ensures CellOrigin(r, cell) <= (r + 1) * c - 2
    decreases c
  {
    if cell >= r {
      assert c > 1 by {
        if c == 1 {
          assert false;
        }
      }
      assert cell - r < r * (c - 1);
      OriginBound(r, c - 1, cell - r);
      assert (r + 1) * c == (r + 1) * (c - 1) + r + 1;
    } else {
      MulLe(1, c, r + 1);
    }
  }

  /** Position `6 * cell + j` is corner `j` of cell `cell`. */
  lemma CornerOfCell(r: int, cell: int, j: int)
    requires r >= 1 && cell >= 0 && 0 <= j < 6
    ensures Corner(r, 6 * cell + j) == CornerValue(CellOrigin(r, cell), r, j)
  {
    assert (6 * cell + j) / 6 == cell && (6 * cell + j) % 6 == j;
  }

  /** Every index of an r x c grid of cells names one of its (r+1) * (c+1) points. */
  lemma CornersInRange(r: int, c: int, k: int)
    requires r >= 1 && c >= 1 && 0 <= k < 6 * r * c
    ensures 0 <= Corner(r, k) < (r + 1) * (c + 1)
  {
    assert 6 * r * c == 6 * (r * c);
    OriginBound(r, c, k / 6);
    assert (r + 1) * (c + 1) == (r + 1) * c + r + 1;
  }

  /**
   * With at most 65536 points nothing is lost to 16-bit storage: every
   * stored index is the corner itself, below the point count.
   */
  lemma StoredIndicesExact(r: int, c: int, k: int)
    requires r >= 1 && c >= 1 && 0 <= k < 6 * r * c
    requires (r + 1) * (c + 1) <= 0x1_0000
    ensures Truncate16(Corner(r, k)) as int == Corner(r, k) < (r + 1) * (c + 1)
  {
    CornersInRange(r, c, k);
  }

  /** The two triangles of a cell share the diagonal from its second point to the first point of the next line. */
  lemma CellTrianglesShareDiagonal(r: int, cell: int)
    requires r >= 1 && cell >= 0
    ensures Corner(r, 6 * cell + 1) == Corner(r, 6 * cell + 4)
    ensures Corner(r, 6 * cell + 2) == Corner(r, 6 * cell + 3)
    ensures Corner(r, 6 * cell + 5) == Corner(r, 6 * cell) + r + 2
  {
    assert (6 * cell + 1) / 6 == cell && (6 * cell + 1) % 6 == 1;
    assert (6 * cell + 2) / 6 == cell && (6 * cell + 2) % 6 == 2;
    assert (6 * cell + 3) / 6 == cell && (6 * cell + 3) % 6 == 3;
    assert (6 * cell + 4) / 6 == cell && (6 * cell + 4) % 6 == 4;
    assert (6 * cell + 5) / 6 == cell && (6 * cell + 5) % 6 == 5;
    assert (6 * cell) / 6 == cell && (6 * cell) % 6 == 0;
  }

  /** The six corners of the cell starting at point `index`, written at `idx` as the source does through its moving pointer. */
  method WriteCell(a: array<u16>, idx: int, index: int, r: int)
    requires 0 <= idx && idx + 6 <= a.Length
    modifies a
    ensures forall j :: 0 <= j < 6 ==> a[idx + j] == Truncate16(CornerValue(index, r, j))
    ensures forall k :: 0 <= k < a.Length && !(idx <= k < idx + 6) ==> a[k] == old(a[k])
  {
    a[idx] := Truncate16(index);
    a[idx + 1] := Truncate16(index + r + 1);
    a[idx + 2] := Truncate16(index + 1);
    a[idx + 3] := Truncate16(index + 1);
    a[idx + 4] := Truncate16(index + r + 1);
    a[idx + 5] := Truncate16(index + r + 2);
  }

  /** Writing cell `base + x` of line `y` extends the correctly filled prefix by six positions. */
  method FillCell(a: array<u16>, r: int, y: int, x: int, base: int, index: int)
    requires r >= 1 && y >= 0 && 0 <= x < r && base == r * y && index == y * (r + 1) + x
    requires 0 <= 6 * (base + x) && 6 * (base + x) + 6 <= a.Length
    requires forall k :: 0 <= k < 6 * (base + x) ==> a[k] == Truncate16(Corner(r, k))
    modifies a
    ensures forall k :: 0 <= k < 6 * (base + x) + 6 ==> a[k] == Truncate16(Corner(r, k))
  {
    var idx := 6 * (base + x);
    LineCell(r, y, x);
    assert CellOrigin(r, base + x) == index;
    WriteCell(a, idx, index, r);
    forall k | idx <= k < idx + 6
      ensures a[k] == Truncate16(Corner(r, k))
    {
      var j := k - idx;
      CornerOfCell(r, base + x, j);
      assert k == 6 * (base + x) + j;
      assert a[idx + j] == Truncate16(CornerValue(index, r, j));
    }
  }

  /**
   * One line of `r` cells, the first being cell `base` starting at point
   * `index0`, from array position `6 * base`.
   */
  method FillLine(a: array<u16>, r: int, y: int, base: int, index0: int) returns (index: int)
    requires r >= 1 && y >= 0 && base == r * y && index0 == y * (r + 1)
    requires base >= 0 && 6 * (base + r) <= a.Length
    requires forall k :: 0 <= k < 6 * base ==> a[k] == Truncate16(Corner(r, k))
    modifies a
    ensures index == index0 + r
    ensures forall k :: 0 <= k < 6 * (base + r) ==> a[k] == Truncate16(Corner(r, k))
  {
    index := index0;
    var idx := 6 * base;
    var x := 0;
    while x < r
      invariant 0 <= x <= r && idx == 6 * (base + x) && index == index0 + x
      invariant forall k :: 0 <= k < idx ==> a[k] == Truncate16(Corner(r, k))
    {
      FillCell(a, r, y, x, base, index);
      idx := idx + 6;
      index := index + 1;
      x := x + 1;
    }
  }

  /** The index loops: `c` lines of `r` cells, the running point index skipping each line's last point. */
  method FillIndices(a: array<u16>, r: int, c: int)
    requires r >= 1 && c >= 1 && a.Length >= 6 * (r * c)
    modifies a
    ensures forall k :: 0 <= k < 6 * (r * c) ==> a[k] == Truncate16(Corner(r, k))
  {
    var index := 0;
    var y := 0;
    while y < c
      invariant 0 <= y <= c && index == y * (r + 1)
      invariant forall k :: 0 <= k < 6 * (r * y) ==> a[k] == Truncate16(Corner(r, k))
    {
      LineFits(r, c, y);
      index := FillLine(a, r, y, r * y, index);
      index := index + 1;
      assert r * (y + 1) == r * y + r && (y + 1) * (r + 1) == y * (r + 1) + r + 1;
      y := y + 1;
    }
  }

  /** Line `y` of an r x c grid ends within its 6 * r * c positions. */
  lemma LineFits(r: int, c: int, y: int)
    requires r >= 1 && 0 <= y < c
    ensures 0 <= r * y && 6 * (r * y + r) <= 6 * (r * c)
  {
    MulLe(y + 1, c, r);
    assert r * y + r == (y + 1) * r;
    assert r * c == c * r;
  }

  /** Multiplying by a non-negative factor keeps order. */
  lemma MulLe(a: int, b: int, r: int)
    requires 0 <= a <= b && r >= 0
    ensures 0 <= a * r <= b * r
  {
    assert b * r - a * r == (b - a) * r;
  }

  /** The mesh's point and index counts and its index array. */
  class MeshIndices {
    var texCount: int
    var indexCount: int
    var indices: array<u16>
    /** Whether the index array was allocated here, rather than supplied by the caller. */
    var ownsStorage: bool

    /** A fresh object holds nothing. */
    constructor()
      ensures texCount == 0 && indexCount == 0 && indices.Length == 0 && !ownsStorage
    {
      texCount := 0;
      indexCount := 0;
      indices := new u16[0];
      ownsStorage := false;
    }

    /**
     * `init`: fewer than 2 rows or columns clears everything and fails;
     * otherwise the counts are set and the indices written, into the caller's
     * array when one is supplied and into fresh storage otherwise.
     */
    method Init(rows: int, cols: int, supplied: Option<array<u16>>) returns (ok: bool)
      requires rows >= 2 && cols >= 2 && supplied.Some? ==> supplied.value.Length >= (rows - 1) * (cols - 1) * 6
      modifies this, if supplied.Some? then {supplied.value} else {}
      ensures ok == (rows >= 2 && cols >= 2)
      ensures !ok ==> texCount == 0 && indexCount == 0 && indices.Length == 0 && !ownsStorage
      ensures ok ==> texCount == rows * cols && indexCount == (rows - 1) * (cols - 1) * 6
      ensures ok ==> ownsStorage == supplied.None? && (supplied.Some? ==> indices == supplied.value)
      ensures ok ==> (indices.Length >= indexCount &&
        forall k :: 0 <= k < indexCount ==> indices[k] == Truncate16(Corner(rows - 1, k)))
    {
      if rows < 2 || cols < 2 {
        texCount, indexCount := 0, 0;
        indices := new u16[0];
        ownsStorage := false;
        return false;
      }
      texCount := rows * cols;
      var r, c := rows - 1, cols - 1;
      indexCount := r * c * 6;
      if supplied.Some? {
        indices := supplied.value;
        ownsStorage := false;
      } else {
        indices := new u16[indexCount];
        ownsStorage := true;
      }
      assert 6 * (r * c) == indexCount;
      FillIndices(indices, r, c);
      ok := true;
    }
  }
}
