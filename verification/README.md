# NNStreamer Android API test helpers — Dafny model

This project models the pure logic inside `APITestCommon`, the shared helper
class of the NNStreamer Android instrumented tests:

- `isValidBuffer`: the acceptance predicate for a `ByteBuffer` that is to carry
  tensor data across the Java/native boundary — non-null, direct, in the host's
  native byte order, and of exactly the expected capacity
  (`byte_buffer.dfy`, module `ByteBuffers`).
- `getMaxScore`: the label index with the highest unsigned score among the
  1001 bytes of an image-classification output, -1 when the buffer is rejected
  or every score is 0 (`max_score.dfy`, module `MaxScore`).
- `getSNAPCaffeOption`: the SNAP option string for running the Caffe model on
  the CPU or on the GPU (`snap_caffe_option.dfy`, module `SnapCaffeOption`).
- `NNStreamer.TensorType` and its by-name lookup `valueOf`, as pinned down by
  the `enumTensorType` test (`tensor_type.dfy`, module `TensorTypes`).

`wrappers.dfy` holds `Option`, the outcome of a name lookup or a parse that may
find nothing, and `Result`, the outcome of a Java call that may throw.

Modelling decisions:

- A `ByteBuffer` is an abstract record (`present` for non-null, `direct`,
  `order`, `capacity`, `limit`, `bytes`); the subset type `ByteBuffer` requires
  the backing store to span the capacity and the limit to lie within it.
  Java's absolute `get(i)` (`ByteBuffers.Get`) is bounded by the limit, not the
  capacity, and throws `IndexOutOfBoundsException` at or past it.
- `ByteOrder.nativeOrder()` is the parameter `native` of every member that
  needs it, so every property is proved for either host byte order.
- `Environment.getExternalStorageDirectory().getAbsolutePath()` is the
  parameter `root` of `SnapCaffeOption.CaffeOption`.
- Java's signed `byte` is modelled explicitly (`MaxScore.JavaByte`), and
  `& 0xFF` on the widened `int` as reduction modulo 256 (`MaxScore.Score`).
- `ByteBuffers.Allocate`, `AllocateDirect`, `WithOrder` and `WithLimit` model
  the `java.nio` factories and setters (`allocate` and `allocateDirect` give
  big-endian buffers whose limit is their capacity; `limit(n)` throws
  `IllegalArgumentException` for `n` below zero or above the capacity) so that the acceptance predicate can be stated on the buffers
  callers actually build.
- The Javadoc of `getSNAPCaffeOption` (lines 161-162) shows strings with a
  `custom=` prefix and without the `InputFormat`/`OutputFormat` fields; the
  model follows the code (lines 165-171), not the comment.

## Model

| member | source | states |
|---|---|---|
| ByteBuffers.IsValidBuffer | api/android/api/src/androidTest/java/org/nnsuite/nnstreamer/APITestCommon.java:185-193 | a null, non-direct or non-native-order buffer is rejected whatever the capacity; otherwise it is accepted exactly when its capacity equals the expected one |
| ByteBuffers.NullRejected | api/android/api/src/androidTest/java/org/nnsuite/nnstreamer/APITestCommon.java:185-192 | the null reference is never accepted |
| ByteBuffers.HeapBufferRejected | api/android/api/src/androidTest/java/org/nnsuite/nnstreamer/APITestCommon.java:186 | a heap (non-direct) buffer is rejected in any byte order, size and expected capacity |
| ByteBuffers.DirectNativeAcceptedIffSize | api/android/api/src/androidTest/java/org/nnsuite/nnstreamer/APITestCommon.java:186-189 | a direct buffer set to native order is accepted for an expected capacity if and only if that is its size |
| ByteBuffers.DirectDefaultOrderAcceptedIffBigEndianHost | api/android/api/src/androidTest/java/org/nnsuite/nnstreamer/APITestCommon.java:186 | a direct buffer left in Java's default big-endian order is accepted at its own size exactly on a big-endian host |
| ByteBuffers.LimitedBufferStillAccepted | api/android/api/src/androidTest/java/org/nnsuite/nnstreamer/APITestCommon.java:186-189 | a direct native-order buffer whose limit has been cut below its capacity is still accepted at its capacity |
| ByteBuffers.ValidityIgnoresContents | api/android/api/src/androidTest/java/org/nnsuite/nnstreamer/APITestCommon.java:185-193 | acceptance never depends on the bytes the buffer holds or on its limit |
| MaxScore.JavaByte | api/android/api/src/androidTest/java/org/nnsuite/nnstreamer/APITestCommon.java:113 | a raw byte read as Java's signed byte is its two's-complement value: it lies in -128..127, is congruent to the unsigned byte modulo 256, and is negative exactly when the top bit is set |
| MaxScore.Score | api/android/api/src/androidTest/java/org/nnsuite/nnstreamer/APITestCommon.java:113 | masking the widened signed byte with 0xFF yields the byte's unsigned value 0..255 |
| MaxScore.GetMaxScore | api/android/api/src/androidTest/java/org/nnsuite/nnstreamer/APITestCommon.java:106-123 | -1 for a rejected buffer; a valid buffer whose limit is below 1001 throws IndexOutOfBounds at the limit, and only such a buffer throws; otherwise the result is in -1..1000, a non-negative result has a positive score that is at least every score and strictly above every earlier score (ties go to the first index), it is -1 exactly when all 1001 bytes are zero, and it equals the functional argmax |
| MaxScore.FirstMaxIndexIsFirstMax | api/android/api/src/androidTest/java/org/nnsuite/nnstreamer/APITestCommon.java:107-119 | the functional argmax (first strictly largest positive score, else -1) meets the first-maximum specification for every prefix length |
| MaxScore.FirstMaxUnique | api/android/api/src/androidTest/java/org/nnsuite/nnstreamer/APITestCommon.java:115-118 | at most one index meets the first-maximum specification, so it determines the scan's result |
| SnapCaffeOption.CaffeOption | api/android/api/src/androidTest/java/org/nnsuite/nnstreamer/APITestCommon.java:164-175 | every option starts with the fixed model/format prefix; the CPU option is the prefix followed by exactly "ComputingUnit:CPU"; the GPU option is the prefix, then "ComputingUnit:GPU,GpuCacheSource:", then the storage root, then "/nnstreamer/" |
| SnapCaffeOption.Decode | api/android/api/src/androidTest/java/org/nnsuite/nnstreamer/APITestCommon.java:165-171 | whatever target it reads back from a string, building the option for that target gives the same string |
| SnapCaffeOption.DecodeCaffeOption | api/android/api/src/androidTest/java/org/nnsuite/nnstreamer/APITestCommon.java:165-171 | reading back any built option yields CPU, or GPU with the very root it was built from |
| SnapCaffeOption.CaffeOptionInjective | api/android/api/src/androidTest/java/org/nnsuite/nnstreamer/APITestCommon.java:167-172 | equal option strings come from the same target, and for the GPU from the same storage root |
| SnapCaffeOption.CpuCaffeOptionIgnoresRoot | api/android/api/src/androidTest/java/org/nnsuite/nnstreamer/APITestCommon.java:170-171 | the CPU option is the same string whatever the storage root |
| TensorTypes.NameInjective | api/android/api/src/androidTest/java/org/nnsuite/nnstreamer/APITestCommon.java:209-219 | no two of the eleven constants share a name |
| TensorTypes.ValueOf | api/android/api/src/androidTest/java/org/nnsuite/nnstreamer/APITestCommon.java:209-219 | a successful lookup returns a constant with exactly the given name; a failed one reports IllegalArgument for that name and no constant has it |
| TensorTypes.ValueOfName | api/android/api/src/androidTest/java/org/nnsuite/nnstreamer/APITestCommon.java:209-219 | looking up any constant's own name returns that constant |
| TensorTypes.ValueOfSucceedsIffDeclared | api/android/api/src/androidTest/java/org/nnsuite/nnstreamer/APITestCommon.java:207-220 | the lookup succeeds if and only if the name is one of the declared names |
| TensorTypes.EnumTensorType | api/android/api/src/androidTest/java/org/nnsuite/nnstreamer/APITestCommon.java:207-220 | each of INT32, UINT32, INT16, UINT16, INT8, UINT8, FLOAT64, FLOAT32, INT64, UINT64 and UNKNOWN maps to the like-named constant |
| TensorTypes.ValueOfCaseSensitive | api/android/api/src/androidTest/java/org/nnsuite/nnstreamer/APITestCommon.java:209 | the lookup is case-sensitive: "uint8" is rejected |

## Left out

- `initNNStreamer` and `setUp` (lines 35-44, 195-198): Android context and native library initialisation through mutable static state.
- `grantPermissions` (lines 49-52): Android runtime permissions.
- `getTFLiteImgModel`, `getTFLiteAddModel`, `getSNAPCaffeModel` (lines 58-67, 129-156): existence checks on device storage.
- `readRawImageData` (lines 72-101): file I/O combined with `TensorsInfo`/`TensorsData` sizing, allocation and copy-in; those classes are not part of this model, so their semantics (element widths, tensor sizes, `setTensorData`) are not reconstructed.
- The external storage lookup in `getSNAPCaffeOption` (line 168): the root is a parameter.
- `useAppContext` (lines 200-205): checks the Android package name only.
- `enumNNFWType` (lines 222-228): the same by-name lookup pattern on a four-name enum; `TensorType` covers it.
- `TensorTypes.ValueOf`: Java's `valueOf(null)` throws `NullPointerException`; strings in the model are never null, so that path is absent.
- ByteBuffers.Get: a read through a null reference (`NullPointerException`) is excluded by its precondition rather than modelled; `getMaxScore` reads only buffers `isValidBuffer` accepted, which are non-null.
- Real `ByteBuffer` mechanics (position, mark, relative reads and writes, heap versus native allocation, the actual host endianness) beyond the capacity, limit, flags and contents the helpers read.
- Java's 32-bit `int`: the expected capacity and indices are unbounded integers; all values the helpers use (1001 and below) are far from the 32-bit range.
