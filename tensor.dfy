/** The 2-D float tensor: its shape, its host buffer, its device pointer and
    the flag saying which side holds the data; the three guards, which throw
    (the export runs the host-residency guard before copying, the view runs
    none); the export copy and the row-major view of the host buffer. */
module TensorLib {
  import opened Layout
  import opened NdArrays

  /** std::runtime_error with its message. */
  datatype TensorError = RuntimeError(what: string)

  /** A guard either passes or throws. */
  datatype Outcome = Pass | Fail(error: TensorError)

  /** A value, or the exception thrown instead of returning it. */
  datatype Result<T> = Success(value: T) | Failure(error: TensorError)

  const OnCpuAssertMessage: string := "Tensor on GPU; Should be on CPU"
  const OnGpuAssertMessage: string := "Tensor on CPU; Should be on GPU"
  const SameShapeAssertMessage: string := "Tensor shapes don't match"

  /** The buffer protocol's view of a tensor: its descriptor and the buffer
      it points into (not a copy). */
  datatype BufferView = BufferView(info: BufferInfo, ptr: array<F32>)

  class Tensor {
    /** Shape; fixed once constructed. */
    const dim0: nat
    const dim1: nat
    /** Host buffer. */
    var cpuData: array<F32>
    /** Residency flag: true when the device copy is the one to use. */
    var onGpu: bool
    /** Device buffer; null when none is allocated. */
    var gpuData: array?<F32>

    /** The host buffer holds one float per element, and the shape's byte
        count fits in a size_t. */
    ghost predicate Valid()
      reads this
    {
      cpuData.Length == dim0 * dim1 && Representable(dim0, dim1)
    }

    /** A rows x cols tensor on the host, zero-filled when asked; otherwise
        its contents are left unspecified. */
    constructor (rows: nat, cols: nat, setZero: bool := false)
      requires Representable(rows, cols)
      ensures Valid() && Rows() == rows && Cols() == cols
      ensures OnCpu() && gpuData == null
      ensures fresh(cpuData)
      ensures setZero ==> forall k | 0 <= k < cpuData.Length :: cpuData[k] == Zero
    {
      dim0, dim1 := rows, cols;
      if setZero {
        cpuData := new F32[rows * cols](_ => Zero);
      } else {
        cpuData := new F32[rows * cols];
      }
      onGpu := false;
      gpuData := null;
    }

    /** A host tensor holding a copy of a rank-2 NumPy array, element (i, j) of
        the array at position i * cols + j. The copy reads the array through
        its strides; the raw memory copy in the source agrees with that on
        C-contiguous arrays (MemcpyCorrectOnCContiguous) and not in general
        (FortranOrderMisread, BroadcastOverRead). */
    constructor FromNumpy(src: NdArray)
      requires WellFormed(src)
      requires Representable(RowCount(src), ColCount(src))
      ensures Valid() && Rows() == RowCount(src) && Cols() == ColCount(src)
      ensures OnCpu() && gpuData == null
      ensures fresh(cpuData) && cpuData[..] == Elements(src)
    {
      var rows, cols := RowCount(src), ColCount(src);
      var contents := Elements(src);
      dim0, dim1 := rows, cols;
      onGpu := false;
      gpuData := null;
      cpuData := new F32[rows * cols](k requires 0 <= k < rows * cols => contents[k]);
    }

    function Data(): array<F32>
      reads this
    {
      cpuData
    }

    function DataGpu(): array?<F32>
      reads this
    {
      gpuData
    }

    function Rows(): nat {
      dim0
    }

    function Cols(): nat {
      dim1
    }

    /** Host-resident exactly when the host-residency guard passes. */
    function OnCpu(): (r: bool)
      reads this
      ensures r <==> OnCpuAssert().Pass?
      ensures r <==> OnGpuAssert().Fail?
    {
      !onGpu
    }

    /** Byte count of the tensor: that of its whole host buffer, and a size_t. */
    function Size(): (r: nat)
      reads this
      ensures Valid() ==> r == cpuData.Length * FloatSize && r < SizeLimit
    {
      dim0 * dim1 * FloatSize
    }

    /** Throws exactly when the tensor is on the device. */
    function OnCpuAssert(): (r: Outcome)
      reads this
      ensures r.Pass? <==> !onGpu
      ensures r.Fail? ==> r.error == RuntimeError(OnCpuAssertMessage)
    {
      if onGpu then Fail(RuntimeError(OnCpuAssertMessage)) else Pass
    }

    /** Throws exactly when the tensor is on the host. */
    function OnGpuAssert(): (r: Outcome)
      reads this
      ensures r.Pass? <==> onGpu
      ensures r.Fail? ==> r.error == RuntimeError(OnGpuAssertMessage)
    {
      if !onGpu then Fail(RuntimeError(OnGpuAssertMessage)) else Pass
    }

    /** Throws exactly when the two shapes differ in rows or in columns. */
    function SameShapeAssert(other: Tensor): (r: Outcome)
      ensures r.Pass? <==> Rows() == other.Rows() && Cols() == other.Cols()
      ensures r.Fail? ==> r.error == RuntimeError(SameShapeAssertMessage)
    {
      if Rows() != other.Rows() || Cols() != other.Cols() then Fail(RuntimeError(SameShapeAssertMessage)) else Pass
    }

    /** The row-major view of the host buffer that the buffer protocol
        exposes: shape (rows, cols), element (i, j) at byte
        sizeof(float) * (i * cols + j), pointing at the host buffer itself. */
    function Request(): (r: BufferView)
      reads this
      ensures r.ptr == cpuData
      ensures r.info.itemsize == FloatSize && r.info.format == FloatFormat
      ensures r.info.ndim == 2 && r.info.shape == [Rows(), Cols()]
      ensures |r.info.strides| == 2
      ensures forall i: nat, j: nat :: ByteOffset(r.info, i, j) == FloatSize * FlatIndex(i, j, Cols())
    {
      BufferView(RowMajorInfo(dim0, dim1), Data())
    }

    /** Export to NumPy: throws, before copying anything, when the tensor is on
        the device; otherwise returns a new row-major rows x cols array whose
        elements are the host buffer's. */
    method Numpy() returns (r: Result<NdArray>)
      requires Valid()
      ensures r.Failure? <==> onGpu
      ensures r.Failure? ==> r.error == RuntimeError(OnCpuAssertMessage)
      ensures r.Success? ==> WellFormed(r.value) && RowMajor(r.value)
      ensures r.Success? ==> RowCount(r.value) == Rows() && ColCount(r.value) == Cols()
      ensures r.Success? ==> Elements(r.value) == cpuData[..]
    {
      var check := OnCpuAssert();
      if check.Fail? {
        return Failure(check.error);
      }
      var copy := cpuData[..];
      RowMajorElements(dim0, dim1, copy);
      r := Success(NdArray(RowMajorInfo(dim0, dim1), copy, 0));
    }

    /** Sets the residency flag. setOnGpu is only declared in tensor.h; this
        model assumes it changes the flag and nothing else. */
    method SetOnGpu(flag: bool)
      modifies this
      ensures old(Valid()) ==> Valid()
      ensures onGpu == flag
      ensures cpuData == old(cpuData) && gpuData == old(gpuData)
    {
      onGpu := flag;
    }
  }

  /** In every state exactly one of the two residency guards passes. */
  lemma ResidencyGuardsExclusive(t: Tensor)
    ensures t.OnCpuAssert().Pass? != t.OnGpuAssert().Pass?
  {
  }

  /** The shape guard does not depend on the order of its operands. */
  lemma SameShapeSymmetric(a: Tensor, b: Tensor)
    ensures a.SameShapeAssert(b).Pass? <==> b.SameShapeAssert(a).Pass?
  {
  }

  /** A tensor always has its own shape. */
  lemma SameShapeReflexive(a: Tensor)
    ensures a.SameShapeAssert(a) == Pass
  {
  }

  /** Reading the buffer-protocol view of a valid tensor through its strides
      yields exactly the host buffer, in order. */
  lemma RequestDescribesHostBuffer(t: Tensor)
    requires t.Valid()
    ensures WellFormed(NdArray(t.Request().info, t.cpuData[..], 0))
    ensures Elements(NdArray(t.Request().info, t.cpuData[..], 0)) == t.cpuData[..]
  {
    RowMajorElements(t.Rows(), t.Cols(), t.cpuData[..]);
  }

  /** Exporting a host tensor and building a new tensor from the export gives
      a tensor of the same shape whose host buffer equals the original's, in
      a fresh array. */
  method ExportImport(t: Tensor) returns (u: Tensor)
    requires t.Valid() && t.OnCpu()
    ensures u.Valid() && fresh(u) && fresh(u.cpuData)
    ensures u.Rows() == t.Rows() && u.Cols() == t.Cols()
    ensures u.cpuData[..] == t.cpuData[..]
  {
    var exported := t.Numpy();
    u := new Tensor.FromNumpy(exported.value);
  }
}
