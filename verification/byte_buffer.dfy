/**
 The part of `java.nio.ByteBuffer` that the test helpers look at, and the
 buffer acceptance predicate `isValidBuffer`.

 A buffer is an abstract record: whether the reference is non-null, whether
 it is a direct buffer, its byte order, its capacity and its contents. The
 host's native byte order is not fixed by the model: every member that needs
 it takes it as the parameter `native`, so each property holds whatever the
 host's order is.
 */
module ByteBuffers {
  import opened Wrappers

  /** The two values of `java.nio.ByteOrder`. */
  datatype ByteOrder = BigEndian | LittleEndian

  /**
   A buffer reference as the helpers see it; `present` is false for `null`.
   `bytes` is the backing store of `capacity` bytes; `limit` is the first
   index that reads may not touch.
   */
  datatype BufferRecord = BufferRecord(
    present: bool,
    direct: bool,
    order: ByteOrder,
    capacity: nat,
    limit: nat,
    bytes: seq<bv8>)

  /** A buffer whose backing store spans its capacity and whose limit lies within it. */
  type ByteBuffer = b: BufferRecord | |b.bytes| == b.capacity && b.limit <= b.capacity
    witness BufferRecord(false, false, BigEndian, 0, 0, [])

  /** The `null` reference. */
  const Null: ByteBuffer := BufferRecord(false, false, BigEndian, 0, 0, [])

  /**
   The exceptions the buffer operations throw: an absolute read outside
   `0..limit`, and a new limit outside `0..capacity`.
   */
  datatype BufferError = IndexOutOfBounds(index: int) | IllegalArgument(value: int)

  /**
   The absolute read `buffer.get(i)` on a non-null buffer: the byte at `i`
   when `i` lies below the limit, `IndexOutOfBounds` otherwise.
   */
  function Get(buffer: ByteBuffer, i: int): (r: Result<bv8, BufferError>)
    requires buffer.present
    ensures 0 <= i < buffer.limit ==> r == Success(buffer.bytes[i])
    ensures !(0 <= i < buffer.limit) ==> r == Failure(IndexOutOfBounds(i))
  {
    if 0 <= i < buffer.limit then Success(buffer.bytes[i]) else Failure(IndexOutOfBounds(i))
  }

  /**
   `isValidBuffer(buffer, expected)`: the buffer is accepted only when it is
   non-null, direct, in the host's native order, and its capacity is exactly
   `expected`.
   */
  function IsValidBuffer(buffer: ByteBuffer, expected: int, native: ByteOrder): (valid: bool)
    ensures !buffer.present || !buffer.direct || buffer.order != native ==> !valid
    ensures buffer.present && buffer.direct && buffer.order == native ==>
              (valid <==> buffer.capacity == expected)
    ensures valid ==> |buffer.bytes| == expected
  {
    if buffer.present && buffer.direct && buffer.order == native then
      buffer.capacity == expected
    else
      false
  }

  /** `ByteBuffer.allocate(n)`: a zero-filled heap buffer in big-endian order, limit at capacity. */
  function Allocate(n: nat): (b: ByteBuffer)
    ensures b.present && !b.direct && b.order == BigEndian && b.capacity == n && b.limit == n
    ensures forall i :: 0 <= i < n ==> b.bytes[i] == 0
  {
    BufferRecord(true, false, BigEndian, n, n, seq(n, _ => 0))
  }

  /** `ByteBuffer.allocateDirect(n)`: a zero-filled direct buffer in big-endian order, limit at capacity. */
  function AllocateDirect(n: nat): (b: ByteBuffer)
    ensures b.present && b.direct && b.order == BigEndian && b.capacity == n && b.limit == n
    ensures forall i :: 0 <= i < n ==> b.bytes[i] == 0
  {
    BufferRecord(true, true, BigEndian, n, n, seq(n, _ => 0))
  }

  /** `buffer.order(o)` on a non-null buffer: the same storage and limit, read in order `o`. */
  function WithOrder(buffer: ByteBuffer, o: ByteOrder): (b: ByteBuffer)
    requires buffer.present
    ensures b.order == o
    ensures b.present && b.direct == buffer.direct
    ensures b.capacity == buffer.capacity && b.limit == buffer.limit && b.bytes == buffer.bytes
  {
    buffer.(order := o)
  }

  /**
   `buffer.limit(n)` on a non-null buffer: the same storage with reads cut
   off at `n`; a new limit below zero or above the capacity throws
   `IllegalArgument`.
   */
  function WithLimit(buffer: ByteBuffer, n: int): (r: Result<ByteBuffer, BufferError>)
    requires buffer.present
    ensures 0 <= n <= buffer.capacity ==> r.Success? && r.value.limit == n
    ensures 0 <= n <= buffer.capacity ==> r.value.(limit := buffer.limit) == buffer
    ensures n < 0 || n > buffer.capacity ==> r == Failure(IllegalArgument(n))
  {
    if 0 <= n <= buffer.capacity then Success(buffer.(limit := n)) else Failure(IllegalArgument(n))
  }

  /** The null reference is never accepted, whatever capacity is expected. */
  lemma NullRejected(expected: int, native: ByteOrder)
    ensures !IsValidBuffer(Null, expected, native)
  {
  }

  /** A heap buffer is never accepted, whatever its order, size or the expected capacity. */
  lemma HeapBufferRejected(n: nat, o: ByteOrder, expected: int, native: ByteOrder)
    ensures !IsValidBuffer(WithOrder(Allocate(n), o), expected, native)
  {
  }

  /**
   A direct buffer switched to the native order is accepted for exactly one
   expected capacity: its own size.
   */
  lemma DirectNativeAcceptedIffSize(n: nat, expected: int, native: ByteOrder)
    ensures IsValidBuffer(WithOrder(AllocateDirect(n), native), expected, native) <==> n == expected
  {
  }

  /**
   A direct buffer left in Java's default big-endian order is accepted only on
   a big-endian host; on a little-endian host it is rejected for every size.
   */
  lemma DirectDefaultOrderAcceptedIffBigEndianHost(n: nat, native: ByteOrder)
    ensures IsValidBuffer(AllocateDirect(n), n, native) <==> native == BigEndian
  {
  }

  /**
   Cutting the limit of an accepted direct native-order buffer keeps it
   accepted: the predicate does not look at how much of it can be read.
   */
  lemma LimitedBufferStillAccepted(n: nat, m: nat, native: ByteOrder)
    requires m <= n
    ensures WithLimit(WithOrder(AllocateDirect(n), native), m).Success?
    ensures IsValidBuffer(WithLimit(WithOrder(AllocateDirect(n), native), m).value, n, native)
    ensures WithLimit(WithOrder(AllocateDirect(n), native), m).value.limit == m
  {
  }

  /** Acceptance depends only on the flags and capacity, never on the contents or the limit. */
  lemma ValidityIgnoresContents(b: ByteBuffer, contents: seq<bv8>, limit: nat, expected: int, native: ByteOrder)
    requires |contents| == b.capacity && limit <= b.capacity
    ensures IsValidBuffer(b.(bytes := contents, limit := limit), expected, native)
            == IsValidBuffer(b, expected, native)
  {
  }
}
