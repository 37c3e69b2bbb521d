/**
 `getMaxScore`: the label index with the highest score in the output of the
 image classification model, an argmax over 1001 unsigned bytes.
 */
module MaxScore {
  import opened Wrappers
  import opened ByteBuffers

  /** Number of labels the classification model scores. */
  const LabelCount: nat := 1001

  /** The value of a raw byte as Java's signed `byte` type reads it. */
  function JavaByte(b: bv8): (x: int)
    ensures -128 <= x < 128
    ensures x % 256 == b as int
    ensures x < 0 <==> b >= 0x80
  {
    if b < 0x80 then b as int else b as int - 256
  }

  /**
   `buffer.get(i) & 0xFF`: the signed byte is widened to `int` and masked;
   on a two's-complement `int` the mask keeps the value modulo 256, so the
   score is the byte's unsigned value.
   */
  function Score(b: bv8): (s: int)
    ensures 0 <= s < 256
    ensures s == b as int
  {
    JavaByte(b) % 256
  }

  /**
   The property that pins the result of `getMaxScore` down for a buffer
   holding at least `n` bytes: either no score among the first `n` beats the
   initial maximum 0 and the index is -1, or the index is the first position
   of a positive maximum.
   */
  ghost predicate IsFirstMax(bytes: seq<bv8>, n: nat, index: int)
    requires n <= |bytes|
  {
    if index == -1 then
      forall j :: 0 <= j < n ==> Score(bytes[j]) == 0
    else
      && 0 <= index < n
      && Score(bytes[index]) > 0
      && (forall j :: 0 <= j < n ==> Score(bytes[j]) <= Score(bytes[index]))
      && (forall j :: 0 <= j < index ==> Score(bytes[j]) < Score(bytes[index]))
  }

  /** At most one index satisfies `IsFirstMax`, so it specifies the argmax completely. */
  lemma FirstMaxUnique(bytes: seq<bv8>, n: nat, i: int, k: int)
    requires n <= |bytes|
    requires IsFirstMax(bytes, n, i) && IsFirstMax(bytes, n, k)
    ensures i == k
  {
  }

  /**
   The argmax as a function of the first `n` bytes: the index of the first
   strictly largest positive score, or -1 when every score is 0.
   */
  function FirstMaxIndex(bytes: seq<bv8>, n: nat): (index: int)
    requires n <= |bytes|
    ensures -1 <= index < n
    decreases n
  {
    if n == 0 then -1
    else
      var best := FirstMaxIndex(bytes, n - 1);
      var bestScore := if best == -1 then 0 else Score(bytes[best]);
      if Score(bytes[n - 1]) > bestScore then n - 1 else best
  }

  /** The functional argmax meets the specification `IsFirstMax` for every prefix. */
  lemma {:induction false} FirstMaxIndexIsFirstMax(bytes: seq<bv8>, n: nat)
    requires n <= |bytes|
    ensures IsFirstMax(bytes, n, FirstMaxIndex(bytes, n))
    decreases n
  {
    if n > 0 {
      FirstMaxIndexIsFirstMax(bytes, n - 1);
    }
  }

  /**
   `getMaxScore(buffer)`: -1 for a buffer that `isValidBuffer(buffer, 1001)`
   rejects, without reading any byte; otherwise the scan keeps the running
   maximum (starting at 0) and moves the index only on a strictly greater
   score, so ties go to the first index and an all-zero buffer gives -1.
   A valid buffer whose limit is below 1001 makes the read at the limit
   throw `IndexOutOfBounds`, which leaves the method.
   */
  method GetMaxScore(buffer: ByteBuffer, native: ByteOrder) returns (r: Result<int, BufferError>)
    ensures !IsValidBuffer(buffer, LabelCount, native) ==> r == Success(-1)
    ensures IsValidBuffer(buffer, LabelCount, native) && buffer.limit < LabelCount ==>
              r == Failure(IndexOutOfBounds(buffer.limit))
    ensures r.Failure? ==> IsValidBuffer(buffer, LabelCount, native) && buffer.limit < LabelCount
    ensures r.Success? ==> -1 <= r.value < LabelCount
    ensures r.Success? && r.value >= 0 ==> IsValidBuffer(buffer, LabelCount, native) && buffer.limit == LabelCount
    ensures r.Success? && r.value >= 0 ==> Score(buffer.bytes[r.value]) > 0
    ensures r.Success? && r.value >= 0 ==>
              forall j :: 0 <= j < LabelCount ==> Score(buffer.bytes[j]) <= Score(buffer.bytes[r.value])
    ensures r.Success? && r.value >= 0 ==>
              forall j :: 0 <= j < r.value ==> Score(buffer.bytes[j]) != Score(buffer.bytes[r.value])
    ensures IsValidBuffer(buffer, LabelCount, native) && buffer.limit == LabelCount ==>
              r.Success? && (r.value == -1 <==> forall j :: 0 <= j < LabelCount ==> buffer.bytes[j] == 0)
    ensures IsValidBuffer(buffer, LabelCount, native) && buffer.limit == LabelCount ==>
              r.Success? && IsFirstMax(buffer.bytes, LabelCount, r.value)
    ensures IsValidBuffer(buffer, LabelCount, native) && buffer.limit == LabelCount ==>
              r == Success(FirstMaxIndex(buffer.bytes, LabelCount))
  {
    var index := -1;
    var maxScore := 0;

    if IsValidBuffer(buffer, LabelCount, native) {
      var i := 0;
      while i < LabelCount
        invariant 0 <= i <= LabelCount && i <= buffer.limit
        invariant -1 <= index < i
        invariant index == -1 ==> maxScore == 0
        invariant index >= 0 ==> maxScore == Score(buffer.bytes[index]) > 0
        invariant forall j :: 0 <= j < i ==> Score(buffer.bytes[j]) <= maxScore
        invariant index >= 0 ==> forall j :: 0 <= j < index ==> Score(buffer.bytes[j]) < maxScore
      {
        var read := Get(buffer, i);
        if read.Failure? {
          return Failure(read.error);
        }
        var score := Score(read.value);

        if score > maxScore {
          maxScore := score;
          index := i;
        }
        i := i + 1;
      }
      FirstMaxIndexIsFirstMax(buffer.bytes, LabelCount);
      FirstMaxUnique(buffer.bytes, LabelCount, index, FirstMaxIndex(buffer.bytes, LabelCount));
    }
    return Success(index);
  }
}
