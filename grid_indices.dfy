/** The triangle index buffer both generators build over their
    (stacks+1) x (slices+1) vertex grid: one quad per cell of the
    stacks x slices cell grid, split into two triangles. */
module GridIndices {
  import opened Vectors

  /** The six entries cell (i, j) contributes: triangles (first, second,
      first+1) and (second, second+1, first+1), where first is the flat index
      of vertex (i, j) and second that of vertex (i+1, j). */
  function Cell(slices: nat, i: nat, j: nat): seq<nat>
  {
    var first := i * (slices + 1) + j;
    var second := first + slices + 1;
    [first, second, first + 1, second, second + 1, first + 1]
  }

  /** Entries of the first j cells of row i, in the order the inner loop emits them. */
  function RowCells(slices: nat, i: nat, j: nat): seq<nat>
  {
    if j == 0 then [] else RowCells(slices, i, j - 1) + Cell(slices, i, j - 1)
  }

  /** Entries of the first n complete rows of cells. */
  function Rows(slices: nat, n: nat): seq<nat>
  {
    if n == 0 then [] else Rows(slices, n - 1) + RowCells(slices, n - 1, slices)
  }

  /** The whole index buffer for a stacks x slices cell grid. */
  function IndexBuffer(stacks: nat, slices: nat): seq<nat>
  {
    Rows(slices, stacks)
  }

  /** The shared index loop of both generators: push the six entries of every
      cell, row by row. */
  method AppendGridIndices(indices: Vector<nat>, stacks: nat, slices: nat)
    modifies indices
    ensures indices.elems == old(indices.elems) + IndexBuffer(stacks, slices)
  {
    ghost var start := indices.elems;
    var i := 0;
    while i < stacks
      invariant 0 <= i <= stacks
      invariant indices.elems == start + Rows(slices, i)
    {
      AppendRowIndices(indices, slices, i);
      assert Rows(slices, i + 1) == Rows(slices, i) + RowCells(slices, i, slices);
      i := i + 1;
    }
  }

  /** The inner loop of the index construction: the cells of row i, left to right. */
  method AppendRowIndices(indices: Vector<nat>, slices: nat, i: nat)
    modifies indices
    ensures indices.elems == old(indices.elems) + RowCells(slices, i, slices)
  {
    ghost var start := indices.elems;
    var j := 0;
    while j < slices
      invariant 0 <= j <= slices
      invariant indices.elems == start + RowCells(slices, i, j)
    {
      var first: nat := i * (slices + 1) + j;
      var second: nat := first + slices + 1;
      ghost var before := indices.elems;

      indices.PushBack(first);
      indices.PushBack(second);
      indices.PushBack(first + 1);

      indices.PushBack(second);
      indices.PushBack(second + 1);
      indices.PushBack(first + 1);
      assert indices.elems == before + Cell(slices, i, j);
      assert RowCells(slices, i, j + 1) == RowCells(slices, i, j) + Cell(slices, i, j);
      j := j + 1;
    }
  }

  lemma {:induction false} RowCellsAt(slices: nat, i: nat, j: nat, c: nat, k: nat)
    requires c < j && k < 6
    ensures |RowCells(slices, i, j)| == 6 * j
    ensures RowCells(slices, i, j)[6 * c + k] == Cell(slices, i, c)[k]
  {
    if c < j - 1 {
      RowCellsAt(slices, i, j - 1, c, k);
    } else {
      RowCellsLength(slices, i, j - 1);
    }
  }

  lemma {:induction false} RowCellsLength(slices: nat, i: nat, j: nat)
    ensures |RowCells(slices, i, j)| == 6 * j
  {
    if j > 0 {
      RowCellsLength(slices, i, j - 1);
    }
  }

  lemma {:induction false} RowsLength(slices: nat, n: nat)
    ensures |Rows(slices, n)| == 6 * (n * slices)
  {
    if n > 0 {
      RowsLength(slices, n - 1);
      RowCellsLength(slices, n - 1, slices);
      assert n * slices == (n - 1) * slices + slices;
    }
  }

  lemma {:induction false} RowsAt(slices: nat, n: nat, i: nat, c: nat, k: nat)
    requires i < n && c < slices && k < 6
    ensures 6 * (i * slices + c) + k < |Rows(slices, n)|
    ensures Rows(slices, n)[6 * (i * slices + c) + k] == Cell(slices, i, c)[k]
  {
    RowsLength(slices, n - 1);
    if i < n - 1 {
      RowsAt(slices, n - 1, i, c, k);
    } else {
      RowCellsAt(slices, i, slices, c, k);
      assert 6 * (i * slices + c) + k == 6 * (i * slices) + (6 * c + k);
    }
  }

  /** The buffer holds exactly 6 * stacks * slices entries (2 * stacks * slices
      triangles), whole triangles only. */
  lemma IndexBufferLength(stacks: nat, slices: nat)
    ensures |IndexBuffer(stacks, slices)| == 6 * (stacks * slices)
    ensures |IndexBuffer(stacks, slices)| % 3 == 0
  {
    RowsLength(slices, stacks);
    assert 6 * (stacks * slices) == 3 * (2 * (stacks * slices));
  }

  /** Cell (i, j) occupies entries 6 * (i * slices + j) .. + 5 and holds the two
      triangles of its quad. */
  lemma IndexBufferCell(stacks: nat, slices: nat, i: nat, j: nat)
    requires i < stacks && j < slices
    ensures var p := 6 * (i * slices + j);
            var first := i * (slices + 1) + j;
            var second := first + slices + 1;
            p + 6 <= |IndexBuffer(stacks, slices)| &&
            IndexBuffer(stacks, slices)[p..p + 6] == [first, second, first + 1, second, second + 1, first + 1]
  {
    var p := 6 * (i * slices + j);
    var buffer := IndexBuffer(stacks, slices);
    RowsAt(slices, stacks, i, j, 5);
    assert p + 6 <= |buffer|;
    forall k | 0 <= k < 6
      ensures buffer[p..p + 6][k] == Cell(slices, i, j)[k]
    {
      RowsAt(slices, stacks, i, j, k);
    }
    assert buffer[p..p + 6] == Cell(slices, i, j);
  }

  lemma {:induction false} RowsBound(slices: nat, n: nat)
    ensures forall x :: x in Rows(slices, n) ==> x < (n + 1) * (slices + 1)
  {
    if n > 0 {
      RowsBound(slices, n - 1);
      assert n * (slices + 1) <= (n + 1) * (slices + 1);
      RowCellsBound(slices, n - 1, slices);
    }
  }

  lemma {:induction false} RowCellsBound(slices: nat, i: nat, j: nat)
    requires j <= slices
    ensures forall x :: x in RowCells(slices, i, j) ==> x < (i + 2) * (slices + 1)
  {
    if j > 0 {
      RowCellsBound(slices, i, j - 1);
      var first := i * (slices + 1) + j - 1;
      assert first + slices + 2 < (i + 2) * (slices + 1);
    }
  }

  /** Every index names an existing vertex of the (stacks+1) x (slices+1) grid:
      only stacks x slices cells are emitted, so second + 1 never reaches a
      row or column past the last one. */
  lemma IndexBufferBound(stacks: nat, slices: nat)
    ensures forall x :: x in IndexBuffer(stacks, slices) ==> x < (stacks + 1) * (slices + 1)
  {
    RowsBound(slices, stacks);
  }
}
