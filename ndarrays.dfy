/** A NumPy float32 array seen through the buffer protocol, as the tensor's
    array constructor receives it (py::array_t<float>::request()), and the two
    ways of reading its elements: by its strides, and by copying raw memory
    from its data pointer. */
module NdArrays {
  import opened Layout

  /** The descriptor, the memory the array lies in, and the position in that
      memory at which the descriptor's data pointer points. */
  datatype NdArray = NdArray(info: BufferInfo, mem: seq<F32>, ptr: nat)

  predicate Rank2(a: NdArray) {
    a.info.ndim == 2 && |a.info.shape| == 2 && |a.info.strides| == 2
  }

  function RowCount(a: NdArray): nat
    requires Rank2(a)
  {
    a.info.shape[0]
  }

  function ColCount(a: NdArray): nat
    requires Rank2(a)
  {
    a.info.shape[1]
  }

  /** Position in memory of element (i, j), following the strides. */
  function ElementIndex(a: NdArray, i: nat, j: nat): int
    requires Rank2(a)
  {
    a.ptr + ByteOffset(a.info, i, j) / FloatSize
  }

  /** A rank-2 float32 array whose data pointer lies in its memory, whose
      strides are whole elements and whose memory holds every element the
      descriptor claims. */
  predicate WellFormed(a: NdArray) {
    && Rank2(a)
    && a.ptr <= |a.mem|
    && a.info.itemsize == FloatSize
    && a.info.format == FloatFormat
    && a.info.strides[0] % FloatSize == 0
    && a.info.strides[1] % FloatSize == 0
    && forall i: nat, j: nat | i < RowCount(a) && j < ColCount(a) :: 0 <= ElementIndex(a, i, j) < |a.mem|
  }

  /** Exactly the strides that RowMajorInfo gives: (cols * sizeof(float), sizeof(float)). */
  predicate RowMajor(a: NdArray)
    requires Rank2(a)
  {
    a.info.strides == [FloatSize * ColCount(a), FloatSize]
  }

  /** NumPy's C-contiguity for rank 2: an array with no elements always is;
      otherwise the strides are those of RowMajor, except along an axis of
      extent 1, where the stride is never used and may be anything (as in
      `x[:, None]`). */
  predicate CContiguous(a: NdArray)
    requires Rank2(a)
  {
    || RowCount(a) * ColCount(a) == 0
    || (&& (ColCount(a) > 1 ==> a.info.strides[1] == FloatSize)
        && (RowCount(a) > 1 ==> a.info.strides[0] == FloatSize * ColCount(a)))
  }

  /** The array's elements in row-major order, each read through the strides:
      what the array means. */
  function Elements(a: NdArray): (r: seq<F32>)
    requires WellFormed(a)
    ensures |r| == RowCount(a) * ColCount(a)
  {
    var rows, cols := RowCount(a), ColCount(a);
    seq(rows * cols, k requires 0 <= k < rows * cols =>
      FlatIndexOnto(k, rows, cols);
      a.mem[ElementIndex(a, k / cols, k % cols)])
  }

  /** Element (i, j) of the array lands at flat index i * cols + j of Elements. */
  lemma {:induction false} ElementsAt(a: NdArray, i: nat, j: nat)
    requires WellFormed(a) && i < RowCount(a) && j < ColCount(a)
    ensures FlatIndex(i, j, ColCount(a)) < |Elements(a)|
    ensures Elements(a)[FlatIndex(i, j, ColCount(a))] == a.mem[ElementIndex(a, i, j)]
  {
    FlatIndexInRange(i, j, RowCount(a), ColCount(a));
    FlatIndexInverse(i, j, ColCount(a));
  }

  /** What the array constructor copies: rows * cols floats of raw memory,
      starting at the data pointer, whatever the strides say. Defined only
      while that span stays inside the array's memory. */
  function MemcpyContents(a: NdArray): (r: seq<F32>)
    requires Rank2(a) && a.ptr + RowCount(a) * ColCount(a) <= |a.mem|
    ensures |r| == RowCount(a) * ColCount(a)
    ensures forall k | 0 <= k < |r| :: r[k] == a.mem[a.ptr + k]
  {
    a.mem[a.ptr..a.ptr + RowCount(a) * ColCount(a)]
  }

  /** In a row-major array, element (i, j) sits i * cols + j floats past the data pointer. */
  lemma {:induction false} RowMajorElementIndex(a: NdArray, i: nat, j: nat)
    requires Rank2(a) && RowMajor(a)
    ensures ElementIndex(a, i, j) == a.ptr + FlatIndex(i, j, ColCount(a))
  {
    var n := FlatIndex(i, j, ColCount(a));
    assert ByteOffset(a.info, i, j) == FloatSize * n;
    assert (FloatSize * n) / FloatSize == n;
  }

  /** In a C-contiguous array, in-range element (i, j) sits i * cols + j
      floats past the data pointer. */
  lemma {:induction false} CContiguousElementIndex(a: NdArray, i: nat, j: nat)
    requires Rank2(a) && CContiguous(a) && i < RowCount(a) && j < ColCount(a)
    ensures ElementIndex(a, i, j) == a.ptr + FlatIndex(i, j, ColCount(a))
  {
    var cols := ColCount(a);
    FlatIndexInRange(i, j, RowCount(a), cols);
    assert j * a.info.strides[1] == FloatSize * j by {
      if cols <= 1 { assert j == 0; }
    }
    assert i * a.info.strides[0] == FloatSize * (i * cols) by {
      if RowCount(a) <= 1 { assert i == 0; }
    }
    var n := FlatIndex(i, j, cols);
    assert ByteOffset(a.info, i, j) == FloatSize * n;
    assert (FloatSize * n) / FloatSize == n;
  }

  /** On a C-contiguous array the raw copy stays inside the array's memory. */
  lemma {:induction false} MemcpyInBoundsOnCContiguous(a: NdArray)
    requires WellFormed(a) && CContiguous(a)
    ensures a.ptr + RowCount(a) * ColCount(a) <= |a.mem|
  {
    var rows, cols := RowCount(a), ColCount(a);
    var n := rows * cols;
    if n > 0 {
      var last := n - 1;
      FlatIndexOnto(last, rows, cols);
      var i, j := last / cols, last % cols;
      CContiguousElementIndex(a, i, j);
      assert ElementIndex(a, i, j) < |a.mem|;
    }
  }

  /** On a C-contiguous array the raw copy reads exactly the array's elements. */
  lemma {:induction false} MemcpyCorrectOnCContiguous(a: NdArray)
    requires WellFormed(a) && CContiguous(a)
    ensures a.ptr + RowCount(a) * ColCount(a) <= |a.mem|
    ensures MemcpyContents(a) == Elements(a)
  {
    MemcpyInBoundsOnCContiguous(a);
    var m, e := MemcpyContents(a), Elements(a);
    forall k | 0 <= k < |m|
      ensures m[k] == e[k]
    {
      MemcpyAt(a, k);
    }
  }

  lemma {:induction false} MemcpyAt(a: NdArray, k: nat)
    requires WellFormed(a) && CContiguous(a)
    requires a.ptr + RowCount(a) * ColCount(a) <= |a.mem| && k < RowCount(a) * ColCount(a)
    ensures MemcpyContents(a)[k] == Elements(a)[k]
  {
    var rows, cols := RowCount(a), ColCount(a);
    FlatIndexOnto(k, rows, cols);
    var i, j := k / cols, k % cols;
    CContiguousElementIndex(a, i, j);
    assert ElementIndex(a, i, j) == a.ptr + k;
    assert Elements(a)[k] == a.mem[ElementIndex(a, i, j)];
  }

  /** The array described by RowMajorInfo over a buffer of exactly rows * cols
      floats is well formed and its elements are that buffer. */
  lemma {:induction false} RowMajorElements(rows: nat, cols: nat, data: seq<F32>)
    requires |data| == rows * cols
    ensures WellFormed(NdArray(RowMajorInfo(rows, cols), data, 0))
    ensures Elements(NdArray(RowMajorInfo(rows, cols), data, 0)) == data
  {
    var a := NdArray(RowMajorInfo(rows, cols), data, 0);
    forall i: nat, j: nat | i < rows && j < cols
      ensures 0 <= ElementIndex(a, i, j) < |a.mem|
    {
      RowMajorElementIndex(a, i, j);
      FlatIndexInRange(i, j, rows, cols);
    }
    assert WellFormed(a);
    MemcpyCorrectOnCContiguous(a);
  }

  /** `np.arange(4, dtype=np.float32)[:, None]`: shape (4, 1), strides (4, 0).
      Not RowMajor, yet C-contiguous, and the raw copy reads it correctly. */
  lemma NewAxisColumn()
    ensures var a := NdArray(BufferInfo(FloatSize, FloatFormat, 2, [4, 1], [FloatSize, 0]), [0, 1, 2, 3], 0);
      && WellFormed(a)
      && !RowMajor(a)
      && CContiguous(a)
      && MemcpyContents(a) == Elements(a) == [0, 1, 2, 3]
  {
    var a := NdArray(BufferInfo(FloatSize, FloatFormat, 2, [4, 1], [FloatSize, 0]), [0, 1, 2, 3], 0);
    assert WellFormed(a);
    MemcpyCorrectOnCContiguous(a);
  }

  /** A (3, 0) array with strides (4, 4): not RowMajor, but C-contiguous
      because it has no elements, and the raw copy is as empty as its elements. */
  lemma EmptyArrayContiguous()
    ensures var a := NdArray(BufferInfo(FloatSize, FloatFormat, 2, [3, 0], [FloatSize, FloatSize]), [], 0);
      && WellFormed(a)
      && !RowMajor(a)
      && CContiguous(a)
      && MemcpyContents(a) == Elements(a) == []
  {
    var a := NdArray(BufferInfo(FloatSize, FloatFormat, 2, [3, 0], [FloatSize, FloatSize]), [], 0);
    assert WellFormed(a);
    MemcpyCorrectOnCContiguous(a);
  }

  /** A 2 x 2 array in Fortran (column-major) order: [[0, 1], [2, 3]] stored as
      0, 2, 1, 3. The raw copy reads the memory order, not the elements. */
  lemma FortranOrderMisread()
    ensures var a := NdArray(BufferInfo(FloatSize, FloatFormat, 2, [2, 2], [FloatSize, 2 * FloatSize]), [0, 2, 1, 3], 0);
      && WellFormed(a)
      && Elements(a) == [0, 1, 2, 3]
      && MemcpyContents(a) == [0, 2, 1, 3]
  {
    var a := NdArray(BufferInfo(FloatSize, FloatFormat, 2, [2, 2], [FloatSize, 2 * FloatSize]), [0, 2, 1, 3], 0);
    assert WellFormed(a);
    ElementsAt(a, 0, 1);
    ElementsAt(a, 1, 0);
    ElementsAt(a, 1, 1);
    ElementsAt(a, 0, 0);
  }

  /** A row of two floats broadcast to 2 x 2 (row stride 0, as np.broadcast_to
      makes it): the array is well formed over its two floats of memory, but the
      raw copy of four floats runs past the end of that memory. */
  lemma BroadcastOverRead()
    ensures var a := NdArray(BufferInfo(FloatSize, FloatFormat, 2, [2, 2], [0, FloatSize]), [5, 6], 0);
      && WellFormed(a)
      && Elements(a) == [5, 6, 5, 6]
      && a.ptr + RowCount(a) * ColCount(a) > |a.mem|
  {
    var a := NdArray(BufferInfo(FloatSize, FloatFormat, 2, [2, 2], [0, FloatSize]), [5, 6], 0);
    assert WellFormed(a);
    ElementsAt(a, 0, 0);
    ElementsAt(a, 0, 1);
    ElementsAt(a, 1, 0);
    ElementsAt(a, 1, 1);
  }
}
