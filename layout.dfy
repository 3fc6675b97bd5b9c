/** Element type, size limits and the row-major layout of a 2-D float buffer,
    together with the buffer-protocol descriptor (pybind11's buffer_info)
    that the tensor hands to Python. */
module Layout {

  /** One single-precision float, represented by its 32-bit IEEE-754 pattern.
      The tensor only ever copies floats, so their bits are all there is. */
  type F32 = bv32

  /** The pattern of +0.0f: what value-initialisation (`new float[n]()`) stores. */
  const Zero: F32 := 0

  /** sizeof(float), in bytes. */
  const FloatSize: nat := 4

  /** The buffer-protocol format code for float (format_descriptor<float>). */
  const FloatFormat: string := "f"

  /** 2^64: every size_t lies below it. */
  const SizeLimit: nat := 0x1_0000_0000_0000_0000

  /** A shape whose dimensions, element count and byte count all fit in a size_t. */
  predicate Representable(rows: nat, cols: nat) {
    rows < SizeLimit && cols < SizeLimit && rows * cols * FloatSize < SizeLimit
  }

  /** Position of element (i, j) in a row-major buffer with `cols` columns. */
  function FlatIndex(i: nat, j: nat, cols: nat): nat {
    i * cols + j
  }

  lemma {:induction false} FlatIndexInRange(i: nat, j: nat, rows: nat, cols: nat)
    requires i < rows && j < cols
    ensures FlatIndex(i, j, cols) < rows * cols
  {
    assert i + 1 <= rows;
    assert (i + 1) * cols <= rows * cols by {
      MulMonotone(i + 1, rows, cols);
    }
    assert FlatIndex(i, j, cols) < (i + 1) * cols;
  }

  lemma {:induction false} MulMonotone(a: int, b: int, c: nat)
    ensures a <= b ==> a * c <= b * c
  {
    assert b * c == a * c + (b - a) * c;
  }

  /** Row and column are recovered from the flat index by division and remainder. */
  lemma {:induction false} FlatIndexInverse(i: nat, j: nat, cols: nat)
    requires j < cols
    ensures FlatIndex(i, j, cols) / cols == i
    ensures FlatIndex(i, j, cols) % cols == j
  {
    var k := FlatIndex(i, j, cols);
    var q, r := k / cols, k % cols;
    assert k == q * cols + r && 0 <= r < cols;
    assert (q - i) * cols == j - r;
    MulMonotone(1, q - i, cols);
    MulMonotone(q - i, -1, cols);
  }

  /** Distinct in-range coordinates have distinct flat indices. */
  lemma {:induction false} FlatIndexInjective(i1: nat, j1: nat, i2: nat, j2: nat, cols: nat)
    requires j1 < cols && j2 < cols
    requires FlatIndex(i1, j1, cols) == FlatIndex(i2, j2, cols)
    ensures i1 == i2 && j1 == j2
  {
    FlatIndexInverse(i1, j1, cols);
    FlatIndexInverse(i2, j2, cols);
  }

  /** Every index below rows * cols is the flat index of an in-range coordinate. */
  lemma {:induction false} FlatIndexOnto(k: nat, rows: nat, cols: nat)
    requires k < rows * cols
    ensures cols > 0
    ensures k / cols < rows && k % cols < cols
    ensures FlatIndex(k / cols, k % cols, cols) == k
  {
    MulMonotone(rows, k / cols, cols);
  }

  /** pybind11's buffer_info without its data pointer: item size, format code,
      rank, shape, and strides in bytes. */
  datatype BufferInfo = BufferInfo(itemsize: nat, format: string, ndim: nat, shape: seq<nat>, strides: seq<int>)

  /** Byte distance of element (i, j) from the data pointer of a rank-2 buffer. */
  function ByteOffset(info: BufferInfo, i: nat, j: nat): int
    requires |info.strides| == 2
  {
    i * info.strides[0] + j * info.strides[1]
  }

  /** The descriptor that the tensor gives for its host buffer: a rows x cols
      float matrix laid out row by row. */
  function RowMajorInfo(rows: nat, cols: nat): (info: BufferInfo)
    ensures info.itemsize == FloatSize && info.format == FloatFormat
    ensures info.ndim == |info.shape| == |info.strides| == 2
    ensures info.shape == [rows, cols]
    ensures forall i: nat, j: nat :: ByteOffset(info, i, j) == FloatSize * FlatIndex(i, j, cols)
  {
    BufferInfo(FloatSize, FloatFormat, 2, [rows, cols], [FloatSize * cols, FloatSize])
  }
}
