/** Splitting a parsed text into overlapping chunks, one element of the string for each rune. */
module Chunking {

  datatype Chunk = Chunk(index: nat, text: string)

  function Overlapping(overlap: int): nat {
    if overlap > 0 then overlap else 0
  }

  /** The first chunk, then each later chunk without its first `drop` runes. */
  function Rejoin(chunks: seq<Chunk>, drop: nat): string {
    if chunks == [] then ""
    else
      var last := chunks[|chunks| - 1].text;
      if |chunks| == 1 then last
      else Rejoin(chunks[..|chunks| - 1], drop) + last[if drop < |last| then drop else |last|..]
  }

  /** Where the loop continues after a chunk that does not reach the end. */
  function NextStart(start: nat, target: int, overlap: int): nat {
    if start + target - overlap < 0 then 0 else start + target - overlap
  }

  function StartAfter(n: nat, target: int, overlap: int): nat {
    if n == 0 then 0 else NextStart(StartAfter(n - 1, target, overlap), target, overlap)
  }

  /** The loop is left when a chunk reaches the end, or when the next start is past it. */
  predicate LeavesAt(start: nat, size: nat, target: int) {
    start + target >= size
  }

  lemma {:induction false} Stuck(n: nat, target: int, overlap: int)
    requires 0 < target <= overlap
    ensures StartAfter(n, target, overlap) == 0
  {
    if n > 0 {
      Stuck(n - 1, target, overlap);
    }
  }

  lemma {:induction false} Advances(n: nat, target: int, overlap: int)
    requires overlap < target && target > 0
    ensures StartAfter(n, target, overlap) >= n
  {
    if n > 0 {
      Advances(n - 1, target, overlap);
    }
  }

  /** The loop is left after n more chunks. */
  predicate EndsAfter(n: nat, size: nat, target: int, overlap: int) {
    LeavesAt(StartAfter(n, target, overlap), size, target)
  }

  /** The loop ends exactly if the overlap is below the target or one chunk holds the whole text. */
  lemma TerminatesExactly(size: nat, target: int, overlap: int)
    requires target > 0
    ensures (exists n: nat :: EndsAfter(n, size, target, overlap)) <==> overlap < target || size <= target
  {
    if overlap < target {
      Advances(size, target, overlap);
      assert EndsAfter(size, size, target, overlap);
    } else if size <= target {
      assert EndsAfter(0, size, target, overlap);
    } else {
      forall n: nat ensures !EndsAfter(n, size, target, overlap) {
        Stuck(n, target, overlap);
      }
    }
  }

  predicate Splits(enabled: bool, target: int) {
    enabled && target > 0
  }

  ghost predicate Numbered(chunks: seq<Chunk>) {
    forall i :: 0 <= i < |chunks| ==> chunks[i].index == i
  }

  /** No chunk is empty or longer than the target, and all but the last are full. */
  ghost predicate Sized(chunks: seq<Chunk>, target: int) {
    && (forall i :: 0 <= i < |chunks| ==> 1 <= |chunks[i].text| <= target)
    && (forall i :: 0 <= i < |chunks| - 1 ==> |chunks[i].text| == target)
  }

  /** A chunk starts with the last `overlap` runes of the one before, and goes beyond them. */
  predicate Follows(text: string, before: string, overlap: nat) {
    overlap <= |before| && overlap < |text| && text[..overlap] == before[|before| - overlap..]
  }

  ghost predicate Shares(chunks: seq<Chunk>, overlap: nat) {
    forall i, j :: 0 <= i && j == i + 1 && j < |chunks| ==> Follows(chunks[j].text, chunks[i].text, overlap)
  }

  lemma AddChunk(chunks: seq<Chunk>, next: Chunk, drop: nat)
    requires chunks != [] && drop <= |next.text|
    ensures Rejoin(chunks + [next], drop) == Rejoin(chunks, drop) + next.text[drop..]
  {
    assert (chunks + [next])[..|chunks|] == chunks;
  }

  /** The chunks so far share their overlaps, rejoin to the text up to `end`, and the last one ends there. */
  ghost predicate Covered(input: string, chunks: seq<Chunk>, target: int, overlap: nat, end: int) {
    && Shares(chunks, overlap) && chunks != []
    && 0 < |chunks[|chunks| - 1].text| <= end <= |input|
    && Rejoin(chunks, overlap) == input[..end]
    && chunks[|chunks| - 1].text == input[end - |chunks[|chunks| - 1].text|..end]
  }

  lemma ExtendCovered(input: string, chunks: seq<Chunk>, next: Chunk, target: int, overlap: nat, start: nat, end: nat)
    requires Covered(input, chunks, target, overlap, start + overlap)
    requires overlap < target && |chunks[|chunks| - 1].text| == target
    requires start + overlap < end <= |input| && next.text == input[start..end]
    ensures Covered(input, chunks + [next], target, overlap, end)
  {
    var last := chunks[|chunks| - 1].text;
    NextFollows(input, last, next.text, target, overlap, start, end);
    var after := chunks + [next];
    assert after[|after| - 1] == next && after[|after| - 2] == chunks[|chunks| - 1];
    assert Shares(after, overlap);
    assert Rejoin(after, overlap) == input[..end] by {
      hide Shares;
      AddChunk(chunks, next, overlap);
      Onward(input, start, overlap, end);
    }
  }

  lemma Onward(input: string, start: nat, overlap: nat, end: nat)
    requires start + overlap <= end <= |input|
    ensures input[..start + overlap] + input[start..end][overlap..] == input[..end]
  {
  }

  lemma NextFollows(input: string, last: string, next: string, target: int, overlap: nat, start: nat, end: nat)
    requires overlap < target == |last| && start + overlap >= target && start + overlap < end <= |input|
    requires last == input[start + overlap - target..start + overlap] && next == input[start..end]
    ensures Follows(next, last, overlap)
  {
    assert last[target - overlap..] == input[start..start + overlap] == next[..overlap];
  }

  lemma OnlyChunk(chunk: Chunk, drop: nat)
    ensures Rejoin([chunk], drop) == chunk.text
  {
  }

  /** Before a round: full chunks up to here, and the next one starts at `start`. */
  ghost predicate Progress(input: string, chunks: seq<Chunk>, target: int, overlap: int, start: nat) {
    && Numbered(chunks) && (forall i :: 0 <= i < |chunks| ==> |chunks[i].text| == target)
    && (chunks == [] ==> start == 0)
    && (chunks != [] ==>
          && 0 < target < |input| && overlap < target && start + overlap < |input|
          && (overlap >= 0 ==> Covered(input, chunks, target, overlap, start + overlap))
          && (overlap < 0 ==> |Rejoin(chunks, 0)| <= start + overlap))
  }

  lemma Begin(input: string, target: int, overlap: int)
    ensures Progress(input, [], target, overlap, 0)
  {
  }

  lemma Continue(input: string, chunks: seq<Chunk>, target: int, overlap: int, start: nat)
    requires Progress(input, chunks, target, overlap, start)
    requires 0 < target && overlap < target && start + target < |input|
    ensures Progress(input, chunks + [Chunk(|chunks|, input[start..start + target])], target, overlap,
              start + target - overlap)
  {
    hide Rejoin, Covered;
    var next := Chunk(|chunks|, input[start..start + target]);
    if chunks == [] {
      OnlyChunk(next, 0);
      assert chunks + [next] == [next];
      if overlap >= 0 {
        FirstCovered(input, next, target, overlap);
      }
    } else if overlap >= 0 {
      ExtendCovered(input, chunks, next, target, overlap, start, start + target);
    } else {
      AddChunk(chunks, next, 0);
    }
  }

  lemma FirstCovered(input: string, first: Chunk, target: int, overlap: nat)
    requires 0 < target <= |input| && first.text == input[..target]
    ensures Covered(input, [first], target, overlap, target)
  {
  }

  lemma Finish(input: string, chunks: seq<Chunk>, target: int, overlap: int, start: nat)
    requires Progress(input, chunks, target, overlap, start)
    requires 0 < target && start < |input| <= start + target
    ensures Complete(input, chunks + [Chunk(|chunks|, input[start..])], target, overlap)
  {
    hide Rejoin;
    var next := Chunk(|chunks|, input[start..]);
    assert input[..|input|] == input;
    if chunks == [] {
      OnlyChunk(next, Overlapping(overlap));
      assert chunks + [next] == [next];
    } else if overlap >= 0 {
      assert input[start..|input|] == input[start..];
      ExtendCovered(input, chunks, next, target, overlap, start, |input|);
    } else {
      AddChunk(chunks, next, 0);
    }
  }

  lemma Overshoot(input: string, chunks: seq<Chunk>, target: int, overlap: int, start: nat)
    requires Progress(input, chunks, target, overlap, start)
    requires chunks != [] && start >= |input|
    ensures Complete(input, chunks, target, overlap)
  {
  }

  /**
   The text is recovered from the chunks exactly if the overlap is not negative, or one chunk
   holds it all; a negative overlap skips runes between chunks.
   */
  ghost predicate Complete(input: string, chunks: seq<Chunk>, target: int, overlap: int) {
    && Numbered(chunks) && Sized(chunks, target)
    && (overlap >= 0 ==> Shares(chunks, overlap))
    && (Rejoin(chunks, Overlapping(overlap)) == input <==> overlap >= 0 || |input| <= target)
  }

  /** The loop has made n chunks when it is left: at the first end, or before a start past the text. */
  ghost predicate MadeWhenLeft(n: nat, size: nat, target: int, overlap: int) {
    exists last: nat ::
      && EndsAfter(last, size, target, overlap)
      && (forall k: nat :: k < last ==> !EndsAfter(k, size, target, overlap))
      && n == if StartAfter(last, target, overlap) < size then last + 1 else last
  }

  /** Chunk k starts at the k-th start and ends at the target size or with the text. */
  ghost predicate CutAtStarts(input: string, chunks: seq<Chunk>, target: int, overlap: int) {
    forall k :: 0 <= k < |chunks| ==>
      && CutAt(StartAfter(k, target, overlap), |input|, target)
      && chunks[k].text == Cut(input, StartAfter(k, target, overlap), target)
  }

  predicate CutAt(start: nat, size: nat, target: int) {
    start < size && target > 0
  }

  function Cut(input: string, start: nat, target: int): string
    requires CutAt(start, |input|, target)
  {
    if start + target > |input| then input[start..] else input[start..start + target]
  }

  /** The chunks so far, none of which reached the end, and the start that comes next. */
  ghost predicate Cutting(input: string, chunks: seq<Chunk>, target: int, overlap: int, start: nat) {
    && start == StartAfter(|chunks|, target, overlap) && CutAtStarts(input, chunks, target, overlap)
    && forall k: nat :: k < |chunks| ==> !EndsAfter(k, |input|, target, overlap)
  }

  lemma CutBegin(input: string, target: int, overlap: int)
    ensures Cutting(input, [], target, overlap, 0)
  {
  }

  lemma OneMoreCut(input: string, chunks: seq<Chunk>, next: Chunk, target: int, overlap: int, start: nat)
    requires CutAtStarts(input, chunks, target, overlap) && start == StartAfter(|chunks|, target, overlap)
    requires CutAt(start, |input|, target) && next.text == Cut(input, start, target)
    ensures CutAtStarts(input, chunks + [next], target, overlap)
  {
    hide CutAt, Cut, StartAfter;
  }

  lemma CutOn(input: string, chunks: seq<Chunk>, target: int, overlap: int, start: nat)
    requires Cutting(input, chunks, target, overlap, start) && 0 < target && start + target < |input|
    ensures Cutting(input, chunks + [Chunk(|chunks|, input[start..start + target])], target, overlap,
              NextStart(start, target, overlap))
  {
    hide CutAtStarts;
    OneMoreCut(input, chunks, Chunk(|chunks|, input[start..start + target]), target, overlap, start);
  }

  lemma CutLast(input: string, chunks: seq<Chunk>, target: int, overlap: int, start: nat)
    requires Cutting(input, chunks, target, overlap, start) && start < |input| <= start + target
    ensures CutAtStarts(input, chunks + [Chunk(|chunks|, input[start..])], target, overlap)
    ensures MadeWhenLeft(|chunks| + 1, |input|, target, overlap)
  {
    hide CutAtStarts;
    assert EndsAfter(|chunks|, |input|, target, overlap);
    assert input[start..|input|] == input[start..];
    OneMoreCut(input, chunks, Chunk(|chunks|, input[start..]), target, overlap, start);
  }

  lemma CutOver(input: string, chunks: seq<Chunk>, target: int, overlap: int, start: nat)
    requires Cutting(input, chunks, target, overlap, start) && start >= |input| && target > 0
    ensures CutAtStarts(input, chunks, target, overlap) && MadeWhenLeft(|chunks|, |input|, target, overlap)
  {
    assert EndsAfter(|chunks|, |input|, target, overlap);
  }

  /** What the loop keeps. */
  ghost predicate Underway(input: string, chunks: seq<Chunk>, target: int, overlap: int, start: nat) {
    Progress(input, chunks, target, overlap, start) && Cutting(input, chunks, target, overlap, start)
  }

  /** What the chunks are when the loop is left. */
  ghost predicate Built(input: string, chunks: seq<Chunk>, target: int, overlap: int) {
    && Complete(input, chunks, target, overlap)
    && CutAtStarts(input, chunks, target, overlap) && MadeWhenLeft(|chunks|, |input|, target, overlap)
  }

  lemma Outset(input: string, target: int, overlap: int)
    ensures Underway(input, [], target, overlap, 0)
  {
    Begin(input, target, overlap);
    CutBegin(input, target, overlap);
  }

  lemma FullRound(input: string, chunks: seq<Chunk>, target: int, overlap: int, start: nat)
    requires Underway(input, chunks, target, overlap, start)
    requires 0 < target && overlap < target && start + target < |input|
    ensures Underway(input, chunks + [Chunk(|chunks|, input[start..start + target])], target, overlap,
              NextStart(start, target, overlap))
  {
    hide Progress, Cutting;
    Continue(input, chunks, target, overlap, start);
    CutOn(input, chunks, target, overlap, start);
  }

  lemma LastRound(input: string, chunks: seq<Chunk>, target: int, overlap: int, start: nat)
    requires Underway(input, chunks, target, overlap, start) && start < |input| <= start + target
    ensures Built(input, chunks + [Chunk(|chunks|, input[start..])], target, overlap)
  {
    hide Progress, Cutting, Complete, CutAtStarts, MadeWhenLeft;
    Finish(input, chunks, target, overlap, start);
    CutLast(input, chunks, target, overlap, start);
  }

  lemma PastTheEnd(input: string, chunks: seq<Chunk>, target: int, overlap: int, start: nat)
    requires Underway(input, chunks, target, overlap, start) && chunks != [] && start >= |input| && target > 0
    ensures Built(input, chunks, target, overlap)
  {
    hide Progress, Cutting, Complete, CutAtStarts, MadeWhenLeft;
    Overshoot(input, chunks, target, overlap, start);
    CutOver(input, chunks, target, overlap, start);
  }

  method BuildChunks(input: string, enabled: bool, target: int, overlap: int) returns (chunks: seq<Chunk>)
    requires Splits(enabled, target) ==> overlap < target || |input| <= target
    ensures input == "" ==> chunks == []
    ensures input != "" && !Splits(enabled, target) ==> chunks == [Chunk(0, input)]
    ensures input != "" && Splits(enabled, target) ==> Built(input, chunks, target, overlap)
  {
    hide Underway, Built;
    if input == "" {
      return [];
    }
    if !enabled || target <= 0 {
      return [Chunk(0, input)];
    }
    chunks := [];
    var start := 0;
    var index := 0;
    Outset(input, target, overlap);
    while start < |input|
      invariant 0 <= start && index == |chunks| && (start > 0 ==> chunks != [])
      invariant Underway(input, chunks, target, overlap, start)
      decreases |input| - start
    {
      var end := start + target;
      if end > |input| {
        end := |input|;
      }
      ghost var before := chunks;
      chunks := chunks + [Chunk(index, input[start..end])];
      if end == |input| {
        assert input[start..end] == input[start..];
        LastRound(input, before, target, overlap, start);
        return;
      }
      FullRound(input, before, target, overlap, start);
      start := end - overlap;
      if start < 0 {
        start := 0;
      }
      index := index + 1;
    }
    PastTheEnd(input, chunks, target, overlap, start);
  }
}
