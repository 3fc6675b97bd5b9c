# Tensor core of a CUDA autodiff engine, in Dafny

This project models the `Tensor` class of a small tensor library. The library backs an automatic-differentiation engine and is exposed to Python through pybind11. A tensor is a 2-D matrix of single-precision floats. It holds:

- its shape (`dim0` rows, `dim1` columns), fixed once constructed;
- a host buffer of `rows * cols` floats;
- a device pointer;
- a flag saying whether the device copy is the one in use.

The model covers the following:

- The two constructors. One takes a shape and can zero-fill. The other copies a rank-2 NumPy array.
- The queries `rows`, `cols`, `size`, `onCPU`, `data` and `dataGpu`.
- The three guards, which throw `std::runtime_error`. `numpy()` runs `onCpuAssert` before copying; `request()` runs none.
- The `numpy()` export copy.
- The `request()` buffer-protocol descriptor, a row-major view of the host buffer.

Modules:

- `Layout` (`layout.dfy`) covers these pieces:
  - the element type: a float as its 32-bit pattern, because the class only copies floats;
  - the `size_t` limit;
  - the row-major flat index `i * cols + j`, proved a bijection from `[0, rows) x [0, cols)` onto `[0, rows * cols)`;
  - the buffer descriptor (`buffer_info`) with byte strides.
- `NdArrays` (`ndarrays.dfy`) models a NumPy float32 array as the buffer protocol presents it. That is a descriptor, the memory the array lies in, and the position of its data pointer. The module gives two ways to read the elements:
  - `Elements`, which follows the strides;
  - `MemcpyContents`, which copies raw memory from the data pointer, the way the source's array constructor does.
- `TensorLib` (`tensor.dfy`) holds the `Tensor` class:
  - `const` shape fields;
  - an `array<F32>` host buffer;
  - a `bool` residency flag;
  - a nullable `array?<F32>` for the device pointer.

  Guards return `Outcome` and the export returns `Result`. Both carry the `runtime_error` message in place of the source's exceptions. Next to the class sit lemmas about the guards and the view, and a client method used for the export/import round trip.

`Rows`, `Cols`, `Data` and `DataGpu` only return a field. The constructors' contracts give their values, so they have no rows of their own below.

The array constructor differs from the code as written. The source copies `rows * cols` floats of raw memory. The model reads the array through its strides, which is what the copy is evidently meant to do (see "## Findings"). `MemcpyCorrectOnCContiguous` proves the two agree on every C-contiguous array in NumPy's sense: an array with no elements, whatever its strides, or one with strides `(cols * sizeof(float), sizeof(float))`, except that the stride of an axis of extent 1 may be anything. The raw copy itself is kept as `NdArrays.MemcpyContents`.

## Model

| member | source | states |
|---|---|---|
| `Layout.RowMajorInfo` | autodiff/tensorlib/tensor.h:55-59 | The descriptor has item size `sizeof(float)`, format `"f"`, rank 2 and shape (rows, cols). Element (i, j) sits `sizeof(float) * (i * cols + j)` bytes past the data pointer. |
| `Layout.FlatIndexInRange` | autodiff/tensorlib/tensor.h:55-59 | For `i < rows` and `j < cols`, the offset `i * cols + j` lies below `rows * cols`. |
| `Layout.FlatIndexInverse` | autodiff/tensorlib/tensor.h:55-59 | The row and column are recovered from the flat index as `k / cols` and `k % cols`. |
| `Layout.FlatIndexInjective` | autodiff/tensorlib/tensor.h:55-59 | Two in-range coordinates with the same flat index are the same coordinate. |
| `Layout.FlatIndexOnto` | autodiff/tensorlib/tensor.h:55-59 | Every index below `rows * cols` is the flat index of an in-range coordinate. |
| `NdArrays.Elements` | autodiff/tensorlib/tensor.h:25-36 | The array's meaning as a row-major sequence: exactly `rows * cols` floats, one per coordinate of the shape. `ElementsAt` gives each one: element k is the array's element (k / cols, k % cols), read through the strides. |
| `NdArrays.ElementsAt` | autodiff/tensorlib/tensor.h:25-36 | Element (i, j) of the array, read through its strides, lands at position `i * cols + j` of the copied contents. |
| `NdArrays.MemcpyContents` | autodiff/tensorlib/tensor.h:34-35 | The source's raw copy: `rows * cols` floats taken in memory order from the data pointer. They equal the element at that memory position whatever the strides are. |
| `NdArrays.RowMajorElementIndex` | autodiff/tensorlib/tensor.h:55-59 | With row-major strides, element (i, j) sits `i * cols + j` floats past the data pointer. |
| `NdArrays.CContiguousElementIndex` | autodiff/tensorlib/tensor.h:34-35 | In a C-contiguous array (NumPy's rank-2 sense), in-range element (i, j) sits `i * cols + j` floats past the data pointer. |
| `NdArrays.MemcpyInBoundsOnCContiguous` | autodiff/tensorlib/tensor.h:34-35 | On a C-contiguous array, the raw copy of `rows * cols` floats stays inside the array's memory. |
| `NdArrays.MemcpyCorrectOnCContiguous` | autodiff/tensorlib/tensor.h:34-35 | On a C-contiguous array, the raw copy equals the strided reading of the elements. |
| `NdArrays.NewAxisColumn` | autodiff/tensorlib/tensor.h:34-35 | Shows that a (4, 1) column with strides (4, 0) is C-contiguous without having the exact row-major strides, and that the raw copy reads it correctly. |
| `NdArrays.EmptyArrayContiguous` | autodiff/tensorlib/tensor.h:34-35 | Shows that a (3, 0) array with strides (4, 4) is C-contiguous though not row-major, because it has no elements, and that the raw copy and the elements are both empty. |
| `NdArrays.RowMajorElements` | autodiff/tensorlib/tensor.h:60-69 | The array that `RowMajorInfo` describes over a buffer of `rows * cols` floats is well formed, and its elements are exactly that buffer. |
| `NdArrays.FortranOrderMisread` | autodiff/tensorlib/tensor.h:25-36 | Shows a well-formed column-major 2 x 2 array whose raw copy differs from its elements. |
| `NdArrays.BroadcastOverRead` | autodiff/tensorlib/tensor.h:25-36 | Shows a well-formed broadcast 2 x 2 array (row stride 0) whose raw copy would read past the end of its memory. |
| `TensorLib.Tensor.constructor` | autodiff/tensorlib/tensor.h:14-22 | The new tensor is a valid host tensor with the requested shape and a fresh host buffer of `rows * cols` floats. It has no device buffer. With `setZero` every element is +0.0; without it nothing is promised about the contents. |
| `TensorLib.Tensor.FromNumpy` | autodiff/tensorlib/tensor.h:25-36 | Needs a rank-2 array. Takes rows and columns from the array's shape. Leaves the tensor host-resident with no device buffer. The fresh host buffer, which no other array aliases, equals the array's elements in row-major order. |
| `TensorLib.Tensor.OnCpu` | autodiff/tensorlib/tensor.h:53 | True exactly when the host-residency guard passes, and exactly when the device-residency guard fails. |
| `TensorLib.Tensor.Size` | autodiff/tensorlib/tensor.h:76 | For a valid tensor, the result is the byte count of the whole host buffer (`rows * cols * sizeof(float)`) and fits in a `size_t`. |
| `TensorLib.Tensor.OnCpuAssert` | autodiff/tensorlib/tensor.h:79-82 | Fails exactly when the tensor is on the device, with "Tensor on GPU; Should be on CPU". It changes nothing. |
| `TensorLib.Tensor.OnGpuAssert` | autodiff/tensorlib/tensor.h:83-86 | Fails exactly when the tensor is on the host, with "Tensor on CPU; Should be on GPU". It changes nothing. |
| `TensorLib.Tensor.SameShapeAssert` | autodiff/tensorlib/tensor.h:87-90 | Fails exactly when the row counts or the column counts differ, with "Tensor shapes don't match". It changes nothing. |
| `TensorLib.Tensor.Request` | autodiff/tensorlib/tensor.h:55-59 | The view points at the host buffer itself (no copy), with shape (rows, cols) and float items. Element (i, j) sits at byte `sizeof(float) * (i * cols + j)`. |
| `TensorLib.Tensor.Numpy` | autodiff/tensorlib/tensor.h:60-69 | Fails exactly when the tensor is on the device, with the host-residency guard's message. Otherwise it returns a well-formed row-major rows x cols array whose elements equal the host buffer. It never modifies the tensor. |
| `TensorLib.Tensor.SetOnGpu` | autodiff/tensorlib/tensor.h:75 | Sets the residency flag to its argument, leaves both buffers in place and keeps the tensor valid. This behaviour is assumed (see "## Left out"). |
| `TensorLib.ResidencyGuardsExclusive` | autodiff/tensorlib/tensor.h:79-86 | In every state exactly one of the two residency guards passes. |
| `TensorLib.SameShapeSymmetric` | autodiff/tensorlib/tensor.h:87-90 | The shape guard passes for (a, b) exactly when it passes for (b, a). |
| `TensorLib.SameShapeReflexive` | autodiff/tensorlib/tensor.h:87-90 | The shape guard always passes when a tensor is compared with itself. |
| `TensorLib.RequestDescribesHostBuffer` | autodiff/tensorlib/tensor.h:55-59 | Reading the host buffer through the view's descriptor gives back exactly the host buffer, in order. |
| `TensorLib.ExportImport` | autodiff/tensorlib/tensor.h:25-69 | Exporting a host tensor and building a tensor from the export gives a new tensor of the same shape. Its fresh host buffer equals the original's. |

## Findings

| source | as written | input that shows it | evidently intended | confidence | as-written member | corrected member |
|---|---|---|---|---|---|---|
| autodiff/tensorlib/tensor.h:25-36 | The array constructor copies `size()` bytes with `memcpy` from the array's data pointer and ignores its strides. `py::array_t<float>` only forces the dtype, not C order, so a float32 array keeps its own layout. | A float32 2 x 2 array `[[0, 1], [2, 3]]` in Fortran order (strides 4 and 8 bytes, memory 0, 2, 1, 3). The tensor receives 0, 2, 1, 3, and its row-major view reads that back as `[[0, 2], [1, 3]]`. | Element (i, j) of the array is stored at host position `i * cols + j`. | not executed; medium (rests on pybind11's default `array_t` flags) | `NdArrays.FortranOrderMisread` | `TensorLib.Tensor.FromNumpy` |
| autodiff/tensorlib/tensor.h:25-36 | The same `memcpy` reads `rows * cols` consecutive floats even when the array has fewer in memory. | `np.broadcast_to` of a float32 row `[5, 6]` to 2 x 2 (row stride 0, two floats of memory). The copy reads four floats and runs past the end. | The copy holds 5, 6, 5, 6 and reads only the array's own memory. | not executed; medium (rests on pybind11's default `array_t` flags) | `NdArrays.BroadcastOverRead` | `TensorLib.Tensor.FromNumpy` |

`FromNumpy` is specified by `NdArrays.Elements`, whose meaning `NdArrays.ElementsAt` proves. `NdArrays.MemcpyCorrectOnCContiguous` proves it agrees with the source's copy on every C-contiguous array: an array with no elements, or strides `(cols * sizeof(float), sizeof(float))` except along an axis of extent 1.

## Left out

- `gpu()`, `cpu()`, `gpuFree()`, `gpu_alloc()`, `maintain()` and `repr()` (tensor.h:50-54,73-74). They are only declared, and their bodies are not part of this model. Their CUDA transfers, frees and string formatting are therefore not modelled. Nothing in the model allocates a device buffer: `gpuData` is null after construction and the field is only read (`DataGpu`).
- `SetOnGpu`: `setOnGpu(bool)` is only declared (tensor.h:75). The model assumes it sets the flag and nothing else. No property of the model depends on more than that.
- The destructor (tensor.h:38-42): `delete[]` of the host buffer and the device free when on the device. Dafny has no manual deallocation. The source frees the device buffer in the destructor only when `on_gpu` is set, so a device buffer left behind by a transfer back to the host is freed only by an explicit `gpuFree()`. This is not modelled because the transfer bodies are missing.
- `TensorLib.Tensor.constructor` and `TensorLib.Tensor.FromNumpy` require a shape whose element and byte counts fit in a `size_t`. For larger shapes the source's `new float[rows * cols]` would throw or wrap, and that path is not modelled.
- `TensorLib.Tensor.FromNumpy`: the rank check is a C `assert` (tensor.h:28), which aborts the process or is compiled out. It is modelled as the precondition `WellFormed` (rank 2). Arrays whose strides are not whole multiples of `sizeof(float)` are also outside `WellFormed`.
- The `cpu_*` and `gpu_*` operation sets, `createGPUTensor` and the `__global__` kernels (tensor.h:99-163). Only their prototypes exist, so their semantics (including the matrix-product dimension convention) are not modelled. They are also parallel float arithmetic.
- The pybind11 bindings (`autodiff/tensorlib/bindings.cpp`, `autodiff/blas/bindings.cpp`) and the Python driver `sample.py`. They only forward to the class and the operation sets. `def_buffer` in the bindings builds the same descriptor as `request()`, which `Request` models.
- Float values: elements are opaque 32-bit patterns. The class only copies them and never computes on them.
- The ownership policy of the NumPy result (`take_ownership`) and Python reference counting. The export is modelled as an independent value.
