/**
 The shared, size-bounded log: numbered segment files, of which `segments` lists the directory in
 name order. Writing fills the newest segment, opens the next number, and at the high water mark
 drops everything but the newest segment.
 */
module SegmentedLogs {
  import opened Outcomes

  type Byte = bv8

  datatype Segment = Segment(number: nat, bytes: seq<Byte>)

  /** All retained bytes, oldest first. */
  function Content(segments: seq<Segment>): seq<Byte> {
    if segments == [] then [] else Content(segments[..|segments| - 1]) + segments[|segments| - 1].bytes
  }

  ghost predicate Ordered(segments: seq<Segment>) {
    forall i, j :: 0 <= i < j < |segments| ==> segments[i].number < segments[j].number
  }

  ghost predicate IsSuffix(part: seq<Byte>, whole: seq<Byte>) {
    |part| <= |whole| && whole[|whole| - |part|..] == part
  }

  /** All segments but the newest hold exactly `size` bytes, and the newest holds 1 to `size`. */
  ghost predicate Regular(segments: seq<Segment>, size: nat) {
    && (forall i :: 0 <= i < |segments| - 1 ==> |segments[i].bytes| == size)
    && (segments != [] ==> 0 < |segments[|segments| - 1].bytes| <= size)
  }

  /** How much the next chunk may hold. */
  function Room(segments: seq<Segment>, size: nat): nat {
    if segments == [] || |segments[|segments| - 1].bytes| >= size then size else size - |segments[|segments| - 1].bytes|
  }

  function Appended(segments: seq<Segment>, chunk: seq<Byte>, size: nat): (after: seq<Segment>)
    ensures after != []
  {
    if segments == [] then [Segment(1, chunk)]
    else
      var last := segments[|segments| - 1];
      if |last.bytes| >= size then segments + [Segment(last.number + 1, chunk)]
      else segments[..|segments| - 1] + [last.(bytes := last.bytes + chunk)]
  }

  function Pruned(segments: seq<Segment>, high: nat): (after: seq<Segment>)
    requires segments != []
    ensures after != []
  {
    if |Content(segments)| >= high then [segments[|segments| - 1]] else segments
  }

  /** The whole write: chunk after chunk, pruning at the mark after each. */
  function WriteAll(segments: seq<Segment>, data: seq<Byte>, size: nat, high: nat): seq<Segment>
    requires size > 0
    decreases |data|
  {
    if data == [] then segments
    else
      var amount := if |data| < Room(segments, size) then |data| else Room(segments, size);
      WriteAll(Pruned(Appended(segments, data[..amount], size), high), data[amount..], size, high)
  }

  lemma ContentOfOne(segment: Segment)
    ensures Content([segment]) == segment.bytes
  {
    assert [segment][..0] == [];
  }

  lemma AppendedContent(segments: seq<Segment>, chunk: seq<Byte>, size: nat)
    requires Ordered(segments)
    ensures Content(Appended(segments, chunk, size)) == Content(segments) + chunk
    ensures Ordered(Appended(segments, chunk, size))
  {
    var after := Appended(segments, chunk, size);
    if segments == [] {
      ContentOfOne(Segment(1, chunk));
    } else if |segments[|segments| - 1].bytes| >= size {
      assert after[..|after| - 1] == segments;
    } else {
      assert after[..|after| - 1] == segments[..|segments| - 1];
    }
  }

  lemma NewestFits(segments: seq<Segment>, chunk: seq<Byte>, size: nat)
    requires 0 < |chunk| <= Room(segments, size)
    ensures var after := Appended(segments, chunk, size); 0 < |after[|after| - 1].bytes| <= size
    ensures Regular(segments, size) ==> Regular(Appended(segments, chunk, size), size)
  {
  }

  lemma SuffixAfter(part: seq<Byte>, whole: seq<Byte>, more: seq<Byte>)
    requires IsSuffix(part, whole)
    ensures IsSuffix(part + more, whole + more)
  {
  }

  lemma SuffixOfSuffix(part: seq<Byte>, middle: seq<Byte>, whole: seq<Byte>)
    requires IsSuffix(part, middle) && IsSuffix(middle, whole)
    ensures IsSuffix(part, whole)
  {
  }

  lemma PrunedContent(segments: seq<Segment>, high: nat)
    requires segments != [] && Ordered(segments)
    ensures IsSuffix(Content(Pruned(segments, high)), Content(segments)) && Ordered(Pruned(segments, high))
  {
    ContentOfOne(segments[|segments| - 1]);
  }

  /** From any directory at all, one round leaves less than the high water mark. */
  lemma OneRoundBelowHighWater(segments: seq<Segment>, chunk: seq<Byte>, size: nat, high: nat)
    requires 0 < |chunk| <= Room(segments, size) && size < high
    ensures |Content(Pruned(Appended(segments, chunk, size), high))| < high
  {
    NewestFits(segments, chunk, size);
    var after := Appended(segments, chunk, size);
    ContentOfOne(after[|after| - 1]);
  }

  // ----- how much is retained -----

  lemma Divided(n: nat, size: nat)
    requires 0 < size
    ensures n == n / size * size + n % size && n % size < size
  {
  }

  /** What reaching the mark drops: all the full segments that fit strictly below it. */
  function Dropped(size: nat, high: nat): (dropped: nat)
    requires 0 < size < high
    ensures size <= dropped < high <= dropped + size
  {
    Divided(high - 1, size);
    WholeSegmentsBelow(high, size);
    (high - 1) / size * size
  }

  lemma WholeSegmentsBelow(high: nat, size: nat)
    requires 0 < size < high
    ensures (high - 1) / size * size >= size
  {
    var q := (high - 1) / size;
    Divided(high - 1, size);
    assert q == 0 ==> q * size == 0;
    if q >= 1 {
      MoreSegments(1, q, size);
    }
  }

  /** What remains of `total` bytes written to an empty log, under any mark. */
  function Retained(total: nat, size: nat, high: nat): nat
    requires 0 < size < high
    decreases total
  {
    if total < high then total else Retained(total - Dropped(size, high), size, high)
  }

  lemma {:induction false} RetainedBounds(total: nat, size: nat, high: nat)
    requires 0 < size < high
    ensures Retained(total, size, high) < high
    ensures Retained(total, size, high) <= total
    decreases total
  {
    hide Dropped;
    if total >= high {
      RetainedBounds(total - Dropped(size, high), size, high);
    }
  }

  lemma {:induction false} RetainedMore(total: nat, more: nat, size: nat, high: nat)
    requires 0 < size < high && more <= size
    ensures var sum := Retained(total, size, high) + more;
            Retained(total + more, size, high) == if sum < high then sum else sum - Dropped(size, high)
    decreases total
  {
    hide Dropped;
    if total >= high {
      RetainedMore(total - Dropped(size, high), more, size, high);
    }
  }

  lemma {:induction false} RegularSize(segments: seq<Segment>, size: nat)
    requires Regular(segments, size) && segments != []
    ensures |Content(segments)| == (|segments| - 1) * size + |segments[|segments| - 1].bytes|
  {
    var front := segments[..|segments| - 1];
    if front == [] {
    } else {
      FullSize(front, size);
    }
  }

  lemma {:induction false} FullSize(segments: seq<Segment>, size: nat)
    requires forall i :: 0 <= i < |segments| ==> |segments[i].bytes| == size
    ensures |Content(segments)| == |segments| * size
  {
    if segments != [] {
      FullSize(segments[..|segments| - 1], size);
      OneMoreSegment(|segments| - 1, size);
    }
  }

  lemma MoreSegments(k: nat, m: nat, size: nat)
    requires k <= m
    ensures k * size <= m * size
  {
  }

  lemma OneMoreSegment(k: nat, size: nat)
    ensures (k + 1) * size == k * size + size
  {
  }

  lemma NextMultiple(k: nat, m: nat, size: nat, newest: nat, more: nat)
    requires k * size + newest < m * size && newest + more <= size
    ensures k * size + newest + more <= m * size
    ensures k * size + newest + more == m * size ==> newest + more == size
  {
    if k >= m {
      MoreSegments(m, k, size);
    } else {
      MoreSegments(k + 1, m, size);
      OneMoreSegment(k, size);
    }
  }

  /** A regular log below a mark of whole segments never steps over it, and reaches it with a full newest segment. */
  lemma ReachesTheMarkExactly(segments: seq<Segment>, chunk: seq<Byte>, size: nat, m: nat)
    requires Ordered(segments) && Regular(segments, size) && 0 < |chunk| <= Room(segments, size)
    requires |Content(segments)| < m * size
    ensures var after := Appended(segments, chunk, size);
            && |Content(after)| <= m * size
            && (|Content(after)| == m * size ==> |after[|after| - 1].bytes| == size)
  {
    AppendedContent(segments, chunk, size);
    if segments == [] {
      NextMultiple(0, m, size, 0, |chunk|);
    } else {
      RegularSize(segments, size);
      var newest := |segments[|segments| - 1].bytes|;
      if newest < size {
        NextMultiple(|segments| - 1, m, size, newest, |chunk|);
      } else {
        OneMoreSegment(|segments| - 1, size);
        NextMultiple(|segments|, m, size, 0, |chunk|);
      }
    }
  }

  function FullSegments(k: nat, size: nat): seq<Segment> {
    seq(k, i requires 0 <= i < k => Segment(i, seq(size, _ => 0)))
  }

  /**
   If the mark is not a whole number of segments, some regular log reaches it with a newest segment
   that is not full.
   */
  lemma MarkMustBeWholeSegments(size: nat, high: nat)
    requires 0 < size < high && high % size != 0
    ensures exists segments, chunk ::
              && Ordered(segments) && Regular(segments, size) && 0 < |chunk| <= Room(segments, size)
              && |Content(segments)| < high <= |Content(Appended(segments, chunk, size))|
              && |Content(Pruned(Appended(segments, chunk, size), high))| < size
  {
    hide Content;
    Divided(high, size);
    PartialNewest(high / size, high % size, size, high);
  }

  lemma PartialNewest(k: nat, rest: nat, size: nat, high: nat)
    requires 0 < rest < size < high && high == k * size + rest
    ensures exists segments, chunk ::
              && Ordered(segments) && Regular(segments, size) && 0 < |chunk| <= Room(segments, size)
              && |Content(segments)| < high <= |Content(Appended(segments, chunk, size))|
              && |Content(Pruned(Appended(segments, chunk, size), high))| < size
  {
    hide Content;
    var segments, chunk: seq<Byte> := FullSegments(k, size), seq(rest, _ => 0);
    FullSize(segments, size);
    AppendedContent(segments, chunk, size);
    var after := Appended(segments, chunk, size);
    ContentOfOne(after[|after| - 1]);
    assert after[|after| - 1].bytes == chunk;
    assert Room(segments, size) == size;
  }

  lemma OnlyQuotient(k: nat, size: nat, high: nat)
    requires 0 < size < high && k * size < high <= k * size + size
    ensures k * size == Dropped(size, high)
  {
    var q := (high - 1) / size;
    Divided(high - 1, size);
    if k < q {
      MoreSegments(k + 1, q, size);
      OneMoreSegment(k, size);
    } else if k > q {
      MoreSegments(q + 1, k, size);
      OneMoreSegment(q, size);
    }
  }

  /** When a regular log reaches the mark, the segments before the newest hold exactly what `Dropped` says. */
  lemma FullSegmentsAtTheMark(segments: seq<Segment>, chunk: seq<Byte>, size: nat, high: nat)
    requires Ordered(segments) && Regular(segments, size) && 0 < |chunk| <= Room(segments, size) && 0 < size < high
    requires |Content(segments)| < high <= |Content(Appended(segments, chunk, size))|
    ensures var after := Appended(segments, chunk, size);
            |Content(after)| == Dropped(size, high) + |after[|after| - 1].bytes|
  {
    hide Content, Dropped;
    var after := Appended(segments, chunk, size);
    AppendedContent(segments, chunk, size);
    NewestFits(segments, chunk, size);
    RegularSize(after, size);
    if segments != [] {
      RegularSize(segments, size);
      OneMoreSegment(|segments| - 1, size);
      OnlyQuotient(|after| - 1, size, high);
    }
  }

  /** One round of the writing loop keeps exactly what `Retained` says. */
  lemma OneRoundRetains(segments: seq<Segment>, chunk: seq<Byte>, size: nat, high: nat, total: nat)
    requires Ordered(segments) && Regular(segments, size) && 0 < |chunk| <= Room(segments, size)
    requires 0 < size < high && |Content(segments)| == Retained(total, size, high)
    ensures |Content(Pruned(Appended(segments, chunk, size), high))| == Retained(total + |chunk|, size, high)
  {
    hide Content, Dropped, Regular, Ordered, Retained;
    RetainedBounds(total, size, high);
    RetainedMore(total, |chunk|, size, high);
    AppendedContent(segments, chunk, size);
    var after := Appended(segments, chunk, size);
    ContentOfOne(after[|after| - 1]);
    if |Content(after)| >= high {
      FullSegmentsAtTheMark(segments, chunk, size, high);
    }
  }

  /** What one round of the writing loop does, gathered for the loop. */
  lemma Round(segments: seq<Segment>, chunk: seq<Byte>, size: nat, high: nat, total: nat)
    requires Ordered(segments) && 0 < |chunk| <= Room(segments, size) && 0 < size < high
    ensures var after := Pruned(Appended(segments, chunk, size), high);
            && |Content(after)| < high
            && (|Content(segments)| + |chunk| < high ==> Content(after) == Content(segments) + chunk)
            && (Regular(segments, size) ==> Regular(after, size))
            && (Regular(segments, size) && |Content(segments)| == Retained(total, size, high) ==>
                  |Content(after)| == Retained(total + |chunk|, size, high))
  {
    hide Regular, Room, Appended, Retained, Ordered, Content;
    OneRoundBelowHighWater(segments, chunk, size, high);
    AppendedContent(segments, chunk, size);
    NewestFits(segments, chunk, size);
    var after := Appended(segments, chunk, size);
    NewestRegular(after, size);
    if Regular(segments, size) && |Content(segments)| == Retained(total, size, high) {
      OneRoundRetains(segments, chunk, size, high, total);
    }
  }

  /** Whatever the directory held, what a write leaves is a suffix of what was there and what was written. */
  lemma {:induction false} WriteKeepsTheTail(segments: seq<Segment>, data: seq<Byte>, size: nat, high: nat)
    requires Ordered(segments) && 0 < size < high
    ensures Ordered(WriteAll(segments, data, size, high))
    ensures IsSuffix(Content(WriteAll(segments, data, size, high)), Content(segments) + data)
    decreases |data|
  {
    hide Room, Appended, Pruned, Ordered, Content, IsSuffix;
    if data == [] {
      WholeSuffix(Content(segments));
      assert Content(segments) + data == Content(segments);
    } else {
      var amount := if |data| < Room(segments, size) then |data| else Room(segments, size);
      RoomPositive(segments, size);
      var before, chunk, rest := Content(segments), data[..amount], data[amount..];
      var next := Pruned(Appended(segments, chunk, size), high);
      AppendedContent(segments, chunk, size);
      PrunedContent(Appended(segments, chunk, size), high);
      WriteKeepsTheTail(next, rest, size, high);
      Rejoined(before, data, amount);
      SuffixAfter(Content(next), before + chunk, rest);
      SuffixOfSuffix(Content(WriteAll(next, rest, size, high)), Content(next) + rest, before + data);
    }
  }

  lemma Rejoined(before: seq<Byte>, data: seq<Byte>, amount: nat)
    requires amount <= |data|
    ensures before + data[..amount] + data[amount..] == before + data
  {
  }

  /**
   From any directory a write ends below the mark; it loses nothing if all of it stays below, and
   keeps a regular log regular.
   */
  lemma {:induction false} WriteStaysBelow(segments: seq<Segment>, data: seq<Byte>, size: nat, high: nat)
    requires Ordered(segments) && 0 < size < high
    ensures var after := WriteAll(segments, data, size, high);
            && (data != [] ==> |Content(after)| < high)
            && (|Content(segments)| + |data| < high ==> Content(after) == Content(segments) + data)
            && (Regular(segments, size) ==> Regular(after, size))
    decreases |data|
  {
    hide Regular, Room, Appended, Pruned, Ordered, Content, Retained;
    if data == [] {
      assert Content(segments) + data == Content(segments);
    } else {
      var amount := if |data| < Room(segments, size) then |data| else Room(segments, size);
      RoomPositive(segments, size);
      var chunk := data[..amount];
      Round(segments, chunk, size, high, 0);
      AppendedContent(segments, chunk, size);
      PrunedContent(Appended(segments, chunk, size), high);
      WriteStaysBelow(Pruned(Appended(segments, chunk, size), high), data[amount..], size, high);
      Rejoined(Content(segments), data, amount);
    }
  }

  /** Below the mark, a regular log keeps exactly what `Retained` says, whatever the mark and the cuts of the data. */
  lemma {:induction false} WriteRetains(segments: seq<Segment>, data: seq<Byte>, size: nat, high: nat, total: nat)
    requires Ordered(segments) && 0 < size < high && Regular(segments, size)
    requires |Content(segments)| == Retained(total, size, high)
    ensures |Content(WriteAll(segments, data, size, high))| == Retained(total + |data|, size, high)
    decreases |data|
  {
    hide Regular, Room, Appended, Pruned, Ordered, Content, Retained;
    if data != [] {
      var amount := if |data| < Room(segments, size) then |data| else Room(segments, size);
      RoomPositive(segments, size);
      var chunk := data[..amount];
      Round(segments, chunk, size, high, total);
      AppendedContent(segments, chunk, size);
      PrunedContent(Appended(segments, chunk, size), high);
      WriteRetains(Pruned(Appended(segments, chunk, size), high), data[amount..], size, high, total + amount);
    }
  }

  /** The bytes a write builds on: a regular log found at or above the mark keeps only a newest segment with room. */
  function Carried(segments: seq<Segment>, size: nat, high: nat): nat {
    if |Content(segments)| < high || segments == [] then |Content(segments)|
    else if |segments[|segments| - 1].bytes| < size then |segments[|segments| - 1].bytes|
    else 0
  }

  /** The exact length after any write to any regular log. */
  lemma WriteRetainsExactly(segments: seq<Segment>, data: seq<Byte>, size: nat, high: nat)
    requires Ordered(segments) && 0 < size < high && Regular(segments, size) && data != []
    ensures |Content(WriteAll(segments, data, size, high))|
              == Retained(Carried(segments, size, high) + |data|, size, high)
  {
    hide Ordered, Regular, Content, WriteAll, Retained;
    if |Content(segments)| < high {
      RetainedBelow(|Content(segments)|, size, high);
      WriteRetains(segments, data, size, high, |Content(segments)|);
    } else {
      WriteAtTheMark(segments, data, size, high);
    }
  }

  lemma WriteAtTheMark(segments: seq<Segment>, data: seq<Byte>, size: nat, high: nat)
    requires Ordered(segments) && 0 < size < high && Regular(segments, size) && data != []
    requires |Content(segments)| >= high
    ensures |Content(WriteAll(segments, data, size, high))|
              == Retained(Carried(segments, size, high) + |data|, size, high)
  {
    hide Ordered, Content, Regular, Appended, Pruned, Room, Retained, Carried;
    var amount := if |data| < Room(segments, size) then |data| else Room(segments, size);
    RoomPositive(segments, size);
    FirstRoundAtTheMark(segments, data[..amount], size, high);
    WriteRetains(Pruned(Appended(segments, data[..amount], size), high), data[amount..], size, high,
        Carried(segments, size, high) + amount);
  }

  lemma RetainedBelow(total: nat, size: nat, high: nat)
    requires 0 < size < high && total < high
    ensures Retained(total, size, high) == total
  {
  }

  lemma FirstRoundAtTheMark(segments: seq<Segment>, chunk: seq<Byte>, size: nat, high: nat)
    requires Ordered(segments) && Regular(segments, size) && 0 < |chunk| <= Room(segments, size) && 0 < size < high
    requires |Content(segments)| >= high
    ensures var after := Pruned(Appended(segments, chunk, size), high);
            && Ordered(after) && Regular(after, size)
            && |Content(after)| == Carried(segments, size, high) + |chunk|
            && |Content(after)| == Retained(Carried(segments, size, high) + |chunk|, size, high)
  {
    hide Content, Dropped;
    ContentOfNone(segments);
    var after := Appended(segments, chunk, size);
    AppendedContent(segments, chunk, size);
    NewestFits(segments, chunk, size);
    ContentOfOne(after[|after| - 1]);
    NewestRegular(after, size);
  }

  lemma ContentOfNone(segments: seq<Segment>)
    ensures segments == [] ==> Content(segments) == []
  {
  }

  lemma WholeSuffix(bytes: seq<Byte>)
    ensures IsSuffix(bytes, bytes)
  {
  }

  lemma RoomPositive(segments: seq<Segment>, size: nat)
    requires size > 0
    ensures Room(segments, size) > 0
  {
  }

  lemma NewestRegular(segments: seq<Segment>, size: nat)
    requires segments != [] && 0 < |segments[|segments| - 1].bytes| <= size
    ensures Regular([segments[|segments| - 1]], size)
  {
  }

  // ----- the log -----

  class SegmentedLog {
    const segmentBytes: nat
    const highWaterBytes: nat
    var segments: seq<Segment>
    /** Everything in the directory at the start and everything written since. */
    ghost var history: seq<Byte>

    ghost predicate Valid()
      reads this
    {
      0 < segmentBytes < highWaterBytes && Ordered(segments) && IsSuffix(Content(segments), history)
    }

    constructor (directory: seq<Segment>, segment: nat, highWater: nat)
      requires 0 < segment < highWater && Ordered(directory)
      ensures Valid() && segments == directory && segmentBytes == segment && highWaterBytes == highWater
      ensures history == Content(directory)
    {
      segmentBytes, highWaterBytes, segments := segment, highWater, directory;
      history := Content(directory);
    }

    /** The summed sizes of the segment files. */
    method TotalBytes() returns (total: nat)
      ensures total == |Content(segments)|
    {
      total := 0;
      for i := 0 to |segments|
        invariant total == |Content(segments[..i])|
      {
        assert segments[..i + 1][..i] == segments[..i];
        total := total + |segments[i].bytes|;
      }
      assert segments[..|segments|] == segments;
    }

    /** One pass of the loop: append what fits, then prune at the mark. */
    method WriteChunk(remaining: seq<Byte>) returns (amount: nat)
      requires Valid() && remaining != []
      modifies this
      ensures 0 < amount <= |remaining| && amount == if |remaining| < Room(old(segments), segmentBytes)
                then |remaining| else Room(old(segments), segmentBytes)
      ensures Valid() && history == old(history) + remaining[..amount]
      ensures segments == Pruned(Appended(old(segments), remaining[..amount], segmentBytes), highWaterBytes)
    {
      amount := Room(segments, segmentBytes);
      if |remaining| < amount {
        amount := |remaining|;
      }
      ghost var before, chunk := Content(segments), remaining[..amount];
      AppendedContent(segments, chunk, segmentBytes);
      SuffixAfter(before, history, chunk);
      segments := Appended(segments, remaining[..amount], segmentBytes);
      history := history + chunk;
      PrunedContent(segments, highWaterBytes);
      SuffixOfSuffix(Content(Pruned(segments, highWaterBytes)), Content(segments), history);
      var total := TotalBytes();
      if total >= highWaterBytes {
        segments := [segments[|segments| - 1]];
      }
    }

    method Write(data: seq<Byte>)
      requires Valid()
      modifies this
      ensures Valid() && history == old(history) + data
      ensures segments == WriteAll(old(segments), data, segmentBytes, highWaterBytes)
      ensures data != [] ==> |Content(segments)| < highWaterBytes
      ensures Regular(old(segments), segmentBytes) && data != [] ==>
                var carried := Carried(old(segments), segmentBytes, highWaterBytes);
                |Content(segments)| == Retained(carried + |data|, segmentBytes, highWaterBytes)
    {
      hide Regular, Room, Appended, Pruned, IsSuffix, Ordered, Content, Retained, Carried;
      WriteStaysBelow(segments, data, segmentBytes, highWaterBytes);
      if Regular(segments, segmentBytes) && data != [] {
        WriteRetainsExactly(segments, data, segmentBytes, highWaterBytes);
      }
      var remaining := data;
      ghost var done := 0;
      while remaining != []
        invariant Valid() && done + |remaining| == |data| && remaining == data[done..]
        invariant history == old(history) + data[..done]
        invariant WriteAll(segments, remaining, segmentBytes, highWaterBytes)
                    == WriteAll(old(segments), data, segmentBytes, highWaterBytes)
        decreases |remaining|
      {
        var amount := WriteChunk(remaining);
        assert data[..done + amount] == data[..done] + remaining[..amount];
        remaining := remaining[amount..];
        done := done + amount;
      }
    }
  }

  /** Opening a log refuses a mark that does not exceed a positive segment size. */
  method Open(directory: seq<Segment>, segment: int, highWater: int) returns (r: Result<SegmentedLog, string>)
    requires Ordered(directory)
    ensures r.Err? <==> segment <= 0 || highWater <= segment
    ensures r.Ok? ==> fresh(r.value) && r.value.Valid() && r.value.segments == directory
    ensures r.Ok? ==> r.value.segmentBytes == segment && r.value.highWaterBytes == highWater
  {
    if segment <= 0 || highWater <= segment {
      return Err("log high water must exceed the positive segment size");
    }
    var log := new SegmentedLog(directory, segment, highWater);
    return Ok(log);
  }
}
