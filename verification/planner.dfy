/** Part planning for the multipart upload: how many parts a file is split
    into, how large each part is, and which byte range each part covers. */
module Planner {

  /** Target size of one part when the caller does not ask for a count:
      5 MiB. Contracts below write the number out, since the solver handles a
      product with a literal far better than one with a named constant. */
  const DefaultChunkSize: nat := 5_242_880
  const MaxParts: nat := 100

  function Min(a: int, b: int): int {
    if a <= b then a else b
  }

  /** Rounded-up quotient, written as the source writes it: `(a + b - 1) / b`.
      Both operands are non-negative, so Go's truncating division agrees with
      Dafny's. */
  function CeilDiv(a: nat, b: nat): nat
    requires b > 0
  {
    (a + b - 1) / b
  }

  /** `CeilDiv(a, b)` is the least `q` with `q * b >= a`. Kept out of the
      function's contract so that the non-linear facts are only in scope
      where a proof asks for them. */
  lemma CeilDivBounds(a: nat, b: nat)
    requires b > 0
    ensures CeilDiv(a, b) * b >= a
    ensures CeilDiv(a, b) == 0 || (CeilDiv(a, b) - 1) * b < a
    ensures a == 0 <==> CeilDiv(a, b) == 0
  {
    var q := CeilDiv(a, b);
    assert q * b + (a + b - 1) % b == a + b - 1;
  }

  /** The number of parts: the requested count, or as many 5 MiB chunks as
      the file needs, then clamped to [1, 100]. */
  function PartCount(size: nat, requested: int): (n: nat)
    ensures 1 <= n <= MaxParts
    ensures requested > 0 ==> n == Min(requested, MaxParts)
    ensures requested < 0 ==> n == 1
    // with no request, n is the least chunk count covering the file, when that is at most 100
    ensures requested == 0 && size <= 100 * 5_242_880 ==>
              n * 5_242_880 >= size && (n == 1 || (n - 1) * 5_242_880 < size)
    ensures requested == 0 && size > 100 * 5_242_880 ==> n == MaxParts
  {
    var wanted := if requested == 0 then CeilDiv(size, 5_242_880) as int else requested;
    var capped := if wanted > MaxParts then MaxParts else wanted;
    if capped < 1 then 1 else capped
  }

  /** Size of every part but the last: the file size over the part count, rounded up. */
  function ChunkPerPart(size: nat, parts: nat): nat
    requires parts > 0
  {
    CeilDiv(size, parts)
  }

  /** A byte range `[start, start + length)` of the file. */
  datatype PartRange = PartRange(start: int, length: int) {
    function End(): int {
      start + length
    }
  }

  /** Part `i` exactly as the upload loop computes it: it starts at `i * c`
      and ends at `i * c + c`, cut back to the file size. Nothing stops the
      start from passing the end of the file. */
  function PartAsWritten(size: nat, parts: nat, i: nat): (p: PartRange)
    requires parts > 0
    ensures p.End() <= size && p.length <= ChunkPerPart(size, parts)
    ensures p.length < 0 <==> i * ChunkPerPart(size, parts) > size
  {
    var c := ChunkPerPart(size, parts);
    var start := i * c;
    var end := if start + c > size then size else start + c;
    PartRange(start, end - start)
  }

  function PlanAsWritten(size: nat, parts: nat): (plan: seq<PartRange>)
    requires parts > 0
    ensures |plan| == parts
    ensures forall i :: 0 <= i < parts ==> plan[i] == PartAsWritten(size, parts, i)
    ensures forall i :: 0 <= i < parts ==> plan[i].End() <= size
  {
    seq(parts, i requires 0 <= i < parts => PartAsWritten(size, parts, i))
  }

  /** Offset where part `k` starts, the start clamped to the file size. */
  function Boundary(size: nat, c: nat, k: nat): int {
    Min(k * c, size)
  }

  /** Part `i` with its start clamped to the file size as well as its end. */
  function Part(size: nat, parts: nat, i: nat): (p: PartRange)
    requires parts > 0
    ensures 0 <= p.start <= size && 0 <= p.length <= ChunkPerPart(size, parts)
    ensures p.End() <= size
  {
    var c := ChunkPerPart(size, parts);
    var start := Boundary(size, c, i);
    var end := Boundary(size, c, i + 1);
    MulMono(i, i + 1, c);
    PartRange(start, end - start)
  }

  function Plan(size: nat, parts: nat): (plan: seq<PartRange>)
    requires parts > 0
    ensures |plan| == parts
    ensures forall i :: 0 <= i < parts ==> plan[i] == Part(size, parts, i)
    ensures forall i :: 0 <= i < parts ==> 0 <= plan[i].start <= plan[i].End() <= size
  {
    seq(parts, i requires 0 <= i < parts => Part(size, parts, i))
  }

  /** The condition under which no as-written part starts past the end of the file. */
  predicate Safe(size: nat, parts: nat): (r: bool)
    requires parts > 0
    ensures parts == 1 ==> r
  {
    (parts - 1) * ChunkPerPart(size, parts) <= size
  }

  /** An empty file is safe in any number of parts; with more parts than
      bytes, only one part to spare is safe. */
  lemma SafeSmallFiles(size: nat, parts: nat)
    requires parts > 0
    ensures size == 0 ==> Safe(size, parts)
    ensures 0 < size < parts ==> (Safe(size, parts) <==> parts == size + 1)
  {
    var q := ChunkPerPart(size, parts);
    CeilDivBounds(size, parts);
    if size == 0 {
      assert q == 0;
      assert (parts - 1) * q == 0;
    } else if size < parts {
      if q >= 2 {
        MulMono(1, q - 1, parts);
        assert false;
      }
      assert q == 1;
      assert (parts - 1) * q == parts - 1;
    }
  }

  function SumLengths(ps: seq<PartRange>): int {
    if |ps| == 0 then 0 else SumLengths(ps[..|ps| - 1]) + ps[|ps| - 1].length
  }

  lemma MulMono(a: nat, b: nat, c: nat)
    requires a <= b
    ensures a * c <= b * c
  {
  }

  /** The parts tile the file: the first starts at 0, each starts where the
      previous one ends, and the lengths of the first `k` add up to where
      part `k` starts. */
  lemma {:induction false} PlanPrefixSum(size: nat, parts: nat, k: nat)
    requires 0 < parts && k <= parts
    ensures SumLengths(Plan(size, parts)[..k]) == Boundary(size, ChunkPerPart(size, parts), k)
  {
    var plan := Plan(size, parts);
    if k > 0 {
      PlanPrefixSum(size, parts, k - 1);
      assert plan[..k][..k - 1] == plan[..k - 1];
    }
  }

  /** Whatever the requested count, the corrected parts are non-negative,
      contiguous, and their lengths sum to the file size. */
  lemma PlanCoversFile(size: nat, parts: nat)
    requires parts > 0
    ensures var plan := Plan(size, parts);
            && plan[0].start == 0
            && (forall i :: 0 <= i < parts ==> plan[i].length >= 0)
            && (forall i :: 0 <= i < parts - 1 ==> plan[i + 1].start == plan[i].End())
            && plan[parts - 1].End() == size
            && SumLengths(plan) == size
  {
    var plan := Plan(size, parts);
    CeilDivBounds(size, parts);
    PlanPrefixSum(size, parts, parts);
    assert plan[..parts] == plan;
  }

  /** When the plan is safe, the as-written parts are the corrected ones. */
  lemma {:induction false} SafePlanAgrees(size: nat, parts: nat)
    requires parts > 0 && Safe(size, parts)
    ensures PlanAsWritten(size, parts) == Plan(size, parts)
  {
    var c := ChunkPerPart(size, parts);
    forall i | 0 <= i < parts
      ensures PartAsWritten(size, parts, i) == Part(size, parts, i)
    {
      MulMono(i, parts - 1, c);
    }
  }

  /** A single as-written part that does not run backwards is the corrected
      part: its start has not passed the end of the file, so clamping the
      start changes nothing. */
  lemma NonNegativeAgrees(size: nat, parts: nat, i: nat)
    requires parts > 0 && PartAsWritten(size, parts, i).length >= 0
    ensures PartAsWritten(size, parts, i) == Part(size, parts, i)
  {
    var c := ChunkPerPart(size, parts);
    assert (i + 1) * c == i * c + c;
  }

  /** Safety is exactly the condition that no as-written part has a negative
      length (which makes the source's buffer allocation panic). */
  lemma SafeIffNoNegativeLength(size: nat, parts: nat)
    requires parts > 0
    ensures Safe(size, parts) <==>
            forall i :: 0 <= i < parts ==> PartAsWritten(size, parts, i).length >= 0
  {
    if Safe(size, parts) {
      SafePlanAgrees(size, parts);
      assert forall i :: 0 <= i < parts ==> PartAsWritten(size, parts, i) == Plan(size, parts)[i];
    } else {
      assert PartAsWritten(size, parts, parts - 1).length < 0;
    }
  }

  /** A safe plan has equal parts of size `ceil(size / parts)`, except the
      last one, which is no longer. */
  lemma SafePlanEqualParts(size: nat, parts: nat)
    requires parts > 0 && Safe(size, parts)
    ensures var c := ChunkPerPart(size, parts);
            && (forall i :: 0 <= i < parts - 1 ==> PartAsWritten(size, parts, i).length == c)
            && 0 <= PartAsWritten(size, parts, parts - 1).length <= c
  {
    var c := ChunkPerPart(size, parts);
    forall i | 0 <= i < parts - 1
      ensures PartAsWritten(size, parts, i).length == c
    {
      MulMono(i + 1, parts - 1, c);
    }
  }

  /** If each part is at least as large as the part count, the last part
      starts strictly inside the file, so every part is non-empty. */
  lemma LargeChunksLeaveNoEmptyPart(size: nat, parts: nat)
    requires parts > 0 && size > 0
    requires ChunkPerPart(size, parts) >= parts
    ensures (parts - 1) * ChunkPerPart(size, parts) < size
  {
    var c := ChunkPerPart(size, parts);
    CeilDivBounds(size, parts);
    assert (c - 1) * parts < size;
    MulMono(parts, c, parts - 1);
    assert (parts - 1) * c == c * parts - c;
    assert (c - 1) * parts == c * parts - parts;
  }

  /** With no requested count, the chunk size is at least the part count:
      the count is at most 100 and each chunk covers more than the 5 MiB
      that fewer parts would have left over. */
  lemma AutoChunkCoversCount(size: nat)
    requires size > 0
    ensures ChunkPerPart(size, PartCount(size, 0)) >= PartCount(size, 0)
  {
    var p := PartCount(size, 0);
    var c := ChunkPerPart(size, p);
    CeilDivBounds(size, p);
    if p >= 2 {
      // more than one chunk of 5 MiB is needed, so size > (p - 1) * 5 MiB
      assert (p - 1) * 5_242_880 < size;
      if c < p {
        MulMono(c, p - 1, p);
        MulMono(p, 5_242_880, p - 1);
        assert false;
      }
    }
  }

  /** The last as-written part runs from its start to the end of a file
      that its start has not passed. */
  lemma LastPartLength(size: nat, parts: nat)
    requires parts > 0 && (parts - 1) * ChunkPerPart(size, parts) < size
    ensures PartAsWritten(size, parts, parts - 1).length == size - (parts - 1) * ChunkPerPart(size, parts)
  {
    var c := ChunkPerPart(size, parts);
    CeilDivBounds(size, parts);
    assert (parts - 1) * c + c == parts * c;
  }

  /** With no requested count the plan is always safe, and for a non-empty
      file no part is empty. */
  lemma AutoPlanIsSafe(size: nat)
    ensures var parts := PartCount(size, 0);
            && Safe(size, parts)
            && (size > 0 ==> forall i :: 0 <= i < parts ==> PartAsWritten(size, parts, i).length > 0)
  {
    var p := PartCount(size, 0);
    var c := ChunkPerPart(size, p);
    if size == 0 {
      CeilDivBounds(size, p);
      assert c == 0;
    } else {
      AutoChunkCoversCount(size);
      LargeChunksLeaveNoEmptyPart(size, p);
      SafePlanEqualParts(size, p);
      LastPartLength(size, p);
    }
  }

  /** One byte in 3 parts: per-part size 1, and part 3 starts at byte 2,
      one byte past the end. */
  lemma OneByteInThreeParts()
    ensures PartCount(1, 3) == 3 && ChunkPerPart(1, 3) == 1
    ensures PartAsWritten(1, 3, 2) == PartRange(2, -1)
    ensures !Safe(1, 3)
  {
    CeilDivBounds(1, 3);
  }

  /** Explicit counts can be unsafe: 10 bytes in 7 parts gives 2-byte parts,
      and the 7th part starts at byte 12, two bytes past the end. */
  lemma TooManyPartsWitness()
    ensures PartCount(10, 7) == 7 && ChunkPerPart(10, 7) == 2
    ensures PartAsWritten(10, 7, 6) == PartRange(12, -2)
    ensures !Safe(10, 7)
    ensures Plan(10, 7)[5] == PartRange(10, 0) && Plan(10, 7)[6] == PartRange(10, 0)
  {
  }

  lemma SixMiBCount()
    ensures PartCount(6_291_456, 2) == 2 && ChunkPerPart(6_291_456, 2) == 3_145_728
  {
  }

  lemma SixMiBFirstPart()
    ensures Plan(6_291_456, 2)[0] == PartRange(0, 3_145_728)
  {
    assert Part(6_291_456, 2, 0) == PartRange(0, 3_145_728);
  }

  lemma SixMiBSecondPart()
    ensures Plan(6_291_456, 2)[1] == PartRange(3_145_728, 3_145_728)
  {
    assert Part(6_291_456, 2, 1) == PartRange(3_145_728, 3_145_728);
  }

  /** A 6 MiB file uploaded in 2 requested parts is sent as two 3 MiB parts. */
  lemma SixMiBInTwoParts()
    ensures PartCount(6_291_456, 2) == 2
    ensures |Plan(6_291_456, 2)| == 2
    ensures Plan(6_291_456, 2)[0] == PartRange(0, 3_145_728)
    ensures Plan(6_291_456, 2)[1] == PartRange(3_145_728, 3_145_728)
  {
    SixMiBCount();
    SixMiBFirstPart();
    SixMiBSecondPart();
  }
}
