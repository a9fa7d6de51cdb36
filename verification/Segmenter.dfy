/**
 The recursive segmenter: a long prompt is cut at natural boundaries into stripped chunks, and a chunk that is
 still too heavy in tokens is cut again with half the window.
 */
module Segmenter {
  import opened Wrappers
  import opened Text

  const MIN_WINDOW := 1024
  const DEFAULT_SEGMENT_TOKENS := 32_000

  const MARKERS: seq<string> := ["\n\n", "\n", ". ", "? ", "! ", "\U{3002}"]

  /** A chunk and the half-open range of the original text it came from. */
  datatype Segment = Segment(content: string, start: int, end: int)

  // ---------------------------------------------------------------- where to cut

  /** The cut the first marker that occurs late enough asks for, relative to the window; -1 when none does. */
  function MarkerCut(window: string, markers: seq<string>): (cut: int)
    ensures cut == -1 || |window| / 2 + 1 <= cut - 1 < cut <= |window|
    ensures cut == -1 || exists k, i :: 0 <= k < |markers| && OccursAt(window, markers[k], i) && cut == i + |markers[k]|
  {
    if |markers| == 0 then -1
    else
      var index := RFind(window, markers[0]);
      if index > Max(200, |window| / 2) && |markers[0]| > 0 then
        assert OccursAt(window, markers[0], index);
        index + |markers[0]|
      else
        var cut := MarkerCut(window, markers[1..]);
        assert forall k, i {:trigger OccursAt(window, markers[1..][k], i)} ::
            0 <= k < |markers| - 1 && OccursAt(window, markers[1..][k], i) ==> OccursAt(window, markers[k + 1], i);
        cut
  }

  /** `s[start:end]`: an end below zero counts from the end of the text. */
  function Slice(s: string, start: nat, end: int): (r: string)
    requires start <= |s|
    ensures start <= end <= |s| ==> r == s[start..end]
    ensures start + |r| <= |s|
    ensures 0 <= end < start ==> r == ""
    ensures end < 0 ==> start + |r| <= Max(start, |s| + end)
  {
    var e := if end < 0 then Max(0, |s| + end) else Min(end, |s|);
    if e <= start then "" else s[start..e]
  }

  /** `_find_boundary`: past half of the window unless the text ends there. */
  function FindBoundary(text: string, start: nat, end: int): (b: int)
    requires start <= |text| && end <= |text|
    ensures start <= end ==> start <= b <= end
    ensures end == |text| ==> b == |text|
    ensures start <= end < |text| ==> start + (end - start) / 2 + 1 <= b || b == end
    ensures b == end || start <= b <= start + |Slice(text, start, end)|
  {
    if end >= |text| then |text|
    else
      var cut := MarkerCut(Slice(text, start, end), MARKERS);
      if cut == -1 then end else start + cut
  }

  /** An occurrence far enough into the window to cut after. */
  ghost predicate Late(window: string, m: string, i: int) {
    OccursAt(window, m, i) && i > Max(200, |window| / 2)
  }

  ghost predicate NoneLate(window: string, m: string) {
    forall i :: !Late(window, m, i)
  }

  /** The last late occurrence of the marker of highest rank that has one. */
  ghost predicate ChosenBy(window: string, markers: seq<string>, k: int, cut: int) {
    && 0 <= k < |markers|
    && Late(window, markers[k], cut - |markers[k]|)
    && (forall i :: Late(window, markers[k], i) ==> i <= cut - |markers[k]|)
    && (forall j :: 0 <= j < k ==> NoneLate(window, markers[j]))
  }

  ghost predicate Chosen(window: string, markers: seq<string>, cut: int) {
    exists k :: ChosenBy(window, markers, k, cut)
  }

  ghost predicate NoMarkerLate(window: string, markers: seq<string>) {
    forall k :: 0 <= k < |markers| ==> NoneLate(window, markers[k])
  }

  /** Skipping a first marker that has no late occurrence. */
  lemma SkipMarker(window: string, markers: seq<string>, cut: int)
    requires |markers| > 0 && NoneLate(window, markers[0])
    ensures Chosen(window, markers[1..], cut) ==> Chosen(window, markers, cut)
    ensures NoMarkerLate(window, markers[1..]) ==> NoMarkerLate(window, markers)
  {
    hide Late, NoneLate;
    var rest := markers[1..];
    assert forall j :: 0 < j < |markers| ==> markers[j] == rest[j - 1];
    if Chosen(window, rest, cut) {
      var k :| ChosenBy(window, rest, k, cut);
      assert rest[k] == markers[k + 1];
      assert ChosenBy(window, markers, k + 1, cut);
    }
  }

  lemma {:induction false} MarkerCutChoice(window: string, markers: seq<string>)
    requires forall k :: 0 <= k < |markers| ==> markers[k] != ""
    ensures MarkerCut(window, markers) == -1 ==> NoMarkerLate(window, markers)
    ensures MarkerCut(window, markers) != -1 ==> Chosen(window, markers, MarkerCut(window, markers))
  {
    if |markers| > 0 {
      hide OccursAt, RFind, Chosen, NoMarkerLate;
      var first := markers[0];
      var index := RFind(window, first);
      LastIsLatest(window, first);
      if index > Max(200, |window| / 2) {
        assert ChosenBy(window, markers, 0, index + |first|);
        ChosenMeans(window, markers, 0, index + |first|);
      } else {
        MarkerCutChoice(window, markers[1..]);
        SkipMarker(window, markers, MarkerCut(window, markers[1..]));
      }
    }
  }

  lemma ChosenMeans(window: string, markers: seq<string>, k: int, cut: int)
    requires ChosenBy(window, markers, k, cut)
    ensures Chosen(window, markers, cut)
  {
  }

  lemma LastIsLatest(window: string, m: string)
    ensures var index := RFind(window, m);
            && (forall i :: Late(window, m, i) ==> i <= index)
            && (index > Max(200, |window| / 2) ==> Late(window, m, index))
            && (index <= Max(200, |window| / 2) ==> NoneLate(window, m))
  {
    hide RFind;
  }

  /**
   Short of the end of the text a chunk ends right after the last late occurrence of the best marker there is,
   and at the full window exactly when no marker occurs late enough.
   */
  lemma BoundaryIsNatural(text: string, start: nat, end: nat)
    requires start <= end < |text|
    ensures var window, b := text[start..end], FindBoundary(text, start, end);
            var markers := ["\n\n", "\n", ". ", "? ", "! ", "\U{3002}"];
            Chosen(window, markers, b - start) || (b == end && NoMarkerLate(window, markers))
  {
    hide MarkerCut, Chosen, NoMarkerLate;
    assert forall k :: 0 <= k < |MARKERS| ==> |MARKERS[k]| > 0;
    MarkerCutChoice(text[start..end], MARKERS);
  }

  function NarrowWindow(w: int): nat
    requires w > MIN_WINDOW
  {
    Max(MIN_WINDOW, w / 2)
  }

  predicate TooHeavy(chunk: string, w: int, maxTokens: int) {
    EstimateTokens(chunk) > maxTokens && w > MIN_WINDOW
  }

  /** The cursor after the chunk that begins at `start`. */
  function NextStart(text: string, w: int, start: nat): (next: nat)
    requires start < |text|
    ensures start < next <= |text|
    ensures next < |text| && w >= 1 ==> start + w / 2 + 1 <= next
  {
    Max(FindBoundary(text, start, Min(|text|, start + w)), start + 1)
  }

  // ---------------------------------------------------------------- specification

  /** All segments of `text[start..]` for window `w`, with offsets counted from `origin`. */
  function Ranges(text: string, w: int, maxTokens: int, origin: int, start: nat): seq<Segment>
    requires start <= |text|
    decreases w, |text| - start, 1
  {
    if start == |text| then []
    else
      var b := FindBoundary(text, start, Min(|text|, start + w));
      CutChunk(Slice(text, start, b), w, maxTokens, origin + start)
      + Ranges(text, w, maxTokens, origin, Max(b, start + 1))
  }

  /** The segments of a raw chunk that begins at offset `at` of the original text. */
  function CutChunk(raw: string, w: int, maxTokens: int, at: int): seq<Segment>
    decreases w, |raw|, 0
  {
    var chunk := Strip(raw);
    var chunkStart := at + (|raw| - |LStrip(raw)|);
    if chunk == [] then []
    else if TooHeavy(chunk, w, maxTokens) then Ranges(chunk, NarrowWindow(w), maxTokens, chunkStart, 0)
    else [Segment(chunk, chunkStart, chunkStart + |chunk|)]
  }

  // ---------------------------------------------------------------- the loop

  function LeastStep(w: int): nat {
    if w >= 1 then w / 2 + 1 else 1
  }

  /** `rounds` iterations that each advanced by at least `step` fit below `reached`. */
  ghost predicate Paid(rounds: int, step: nat, reached: nat) {
    rounds * step <= reached
  }

  /**
   The loop of `_collect_segment_ranges`, for any window. `rounds` counts its iterations at this level: every round but
   the last moves the cursor by more than half a window, and by at least one character.
   */
  method CollectSegmentRanges(text: string, maxChars: int, maxTokens: int, origin: int)
    returns (segments: seq<Segment>, ghost rounds: nat)
    ensures segments == Ranges(text, maxChars, maxTokens, origin, 0)
    ensures rounds <= |text| / LeastStep(maxChars) + 1
    decreases maxChars, 1
  {
    hide Ranges, CutChunk, FindBoundary, EstimateTokens;
    segments, rounds := [], 0;
    var start := 0;
    while start < |text|
      invariant 0 <= start <= |text|
      invariant Ranges(text, maxChars, maxTokens, origin, 0) == segments + Ranges(text, maxChars, maxTokens, origin, start)
      invariant Paid(if start < |text| then rounds else rounds - 1, LeastStep(maxChars), start)
    {
      var end := Min(|text|, start + maxChars);
      var boundary := FindBoundary(text, start, end);
      var found := CollectChunk(Slice(text, start, boundary), maxChars, maxTokens, origin + start);
      ExtendRanges(text, maxChars, maxTokens, origin, start, segments, found);
      segments := segments + found;
      RoundAdvance(rounds, LeastStep(maxChars), start, Max(boundary, start + 1));
      start := Max(boundary, start + 1);
      rounds := rounds + 1;
    }
    RangesEnd(text, maxChars, maxTokens, origin);
    RoundBound(rounds, LeastStep(maxChars), |text|);
  }

  /** The body of the loop: what one raw chunk contributes. */
  method CollectChunk(raw: string, maxChars: int, maxTokens: int, at: int) returns (found: seq<Segment>)
    ensures found == CutChunk(raw, maxChars, maxTokens, at)
    ensures Strip(raw) == "" ==> found == []
    ensures var chunk, from := Strip(raw), at + |raw| - |LStrip(raw)|;
            chunk != "" ==>
              found == if EstimateTokens(chunk) <= maxTokens || maxChars <= 1024 then [Segment(chunk, from, from + |chunk|)]
                       else Ranges(chunk, Max(1024, maxChars / 2), maxTokens, from, 0)
    decreases maxChars, 0
  {
    var chunk := Strip(raw);
    found := [];
    if chunk != [] {
      var chunkStart := at + (|raw| - |LStrip(raw)|);
      var chunkEnd := chunkStart + |chunk|;
      if EstimateTokens(chunk) > maxTokens && maxChars > MIN_WINDOW {
        ghost var rounds;
        found, rounds := CollectSegmentRanges(chunk, Max(MIN_WINDOW, maxChars / 2), maxTokens, chunkStart);
      } else {
        found := [Segment(chunk, chunkStart, chunkEnd)];
      }
    }
  }

  lemma RangesEnd(text: string, w: int, maxTokens: int, origin: int)
    ensures Ranges(text, w, maxTokens, origin, |text|) == []
  {
  }

  lemma ExtendRanges(text: string, w: int, maxTokens: int, origin: int, start: nat, done: seq<Segment>, found: seq<Segment>)
    requires start < |text|
    requires found == CutChunk(Slice(text, start, FindBoundary(text, start, Min(|text|, start + w))), w, maxTokens, origin + start)
    ensures done + Ranges(text, w, maxTokens, origin, start)
         == (done + found) + Ranges(text, w, maxTokens, origin, NextStart(text, w, start))
  {
    var next := NextStart(text, w, start);
    assert Ranges(text, w, maxTokens, origin, start) == found + Ranges(text, w, maxTokens, origin, next);
  }

  lemma RoundAdvance(rounds: nat, step: nat, start: nat, next: nat)
    requires Paid(rounds, step, start) && start < next
    ensures start + step <= next ==> Paid(rounds + 1, step, next)
    ensures Paid(rounds + 1 - 1, step, next)
  {
  }

  lemma RoundBound(rounds: nat, step: nat, n: nat)
    requires step >= 1 && (Paid(rounds, step, n) || Paid(rounds - 1, step, n))
    ensures rounds <= n / step + 1
  {
    if (rounds - 1) * step <= n {
      QuotientBound(rounds - 1, step, n);
    }
  }

  lemma QuotientBound(q: int, step: nat, n: nat)
    requires step >= 1 && q * step <= n
    ensures q <= n / step
  {
    var r := n / step;
    if q >= r + 1 {
      TimesMonotone(r + 1, q, step);
      assert false;
    }
  }

  lemma TimesMonotone(a: int, b: int, c: nat)
    requires a <= b
    ensures a * c <= b * c
  {
  }

  // ---------------------------------------------------------------- what the segments are

  /** Every segment is the original text at its own offsets, and starts and ends with a visible character. */
  ghost predicate Placed(segs: seq<Segment>, text: string, origin: int, lo: nat, hi: nat)
    requires lo <= hi <= |text|
  {
    forall i :: 0 <= i < |segs| ==> PlacedOne(segs[i], text, origin, lo, hi)
  }

  ghost predicate PlacedOne(s: Segment, text: string, origin: int, lo: nat, hi: nat)
    requires lo <= hi <= |text|
  {
    && origin + lo <= s.start < s.end <= origin + hi
    && s.content == text[s.start - origin..s.end - origin]
    && !IsSpace(s.content[0]) && !IsSpace(s.content[|s.content| - 1])
  }

  ghost predicate Ordered(segs: seq<Segment>) {
    forall i, j :: 0 <= i < j < |segs| ==> segs[i].end <= segs[j].start
  }

  ghost predicate Holds(s: Segment, p: int) {
    s.start <= p < s.end
  }

  ghost predicate Covers(segs: seq<Segment>, text: string, origin: int, lo: nat, hi: nat)
    requires lo <= hi <= |text|
  {
    forall p :: lo <= p < hi && !IsSpace(text[p]) ==> exists i :: 0 <= i < |segs| && Holds(segs[i], origin + p)
  }

  ghost predicate Tiles(segs: seq<Segment>, text: string, origin: int, lo: nat, hi: nat)
    requires lo <= hi <= |text|
  {
    Placed(segs, text, origin, lo, hi) && Ordered(segs) && Covers(segs, text, origin, lo, hi)
  }

  lemma TilesConcat(a: seq<Segment>, b: seq<Segment>, text: string, origin: int, lo: nat, mid: nat, hi: nat)
    requires lo <= mid <= hi <= |text|
    requires Tiles(a, text, origin, lo, mid) && Tiles(b, text, origin, mid, hi)
    ensures Tiles(a + b, text, origin, lo, hi)
  {
    var c := a + b;
    forall i | 0 <= i < |c|
      ensures PlacedOne(c[i], text, origin, lo, hi)
    {
      if i < |a| {
        assert PlacedOne(a[i], text, origin, lo, mid);
      } else {
        assert PlacedOne(b[i - |a|], text, origin, mid, hi);
      }
    }
    forall i, j | 0 <= i < j < |c|
      ensures c[i].end <= c[j].start
    {
      if i < |a| <= j {
        assert PlacedOne(a[i], text, origin, lo, mid);
        assert PlacedOne(b[j - |a|], text, origin, mid, hi);
      }
    }
    forall p | lo <= p < hi && !IsSpace(text[p])
      ensures exists i :: 0 <= i < |c| && Holds(c[i], origin + p)
    {
      if p < mid {
        var i :| 0 <= i < |a| && Holds(a[i], origin + p);
        assert Holds(c[i], origin + p);
      } else {
        var i :| 0 <= i < |b| && Holds(b[i], origin + p);
        assert Holds(c[|a| + i], origin + p);
      }
    }
  }

  /** Offsets found inside a chunk are right for the text the chunk was cut from. */
  lemma TilesRebase(segs: seq<Segment>, chunk: string, text: string, origin: int, at: nat, lo: nat, hi: nat)
    requires lo <= at <= at + |chunk| <= hi <= |text|
    requires chunk == text[at..at + |chunk|]
    requires Blank(text, lo, at) && Blank(text, at + |chunk|, hi)
    requires Tiles(segs, chunk, origin + at, 0, |chunk|)
    ensures Tiles(segs, text, origin, lo, hi)
  {
    hide PlacedOne, IsSpace, Blank;
    forall i | 0 <= i < |segs|
      ensures PlacedOne(segs[i], text, origin, lo, hi)
    {
      PlacedRebase(segs[i], chunk, text, origin, at, lo, hi);
    }
    forall p | lo <= p < hi && !IsSpace(text[p])
      ensures exists i :: 0 <= i < |segs| && Holds(segs[i], origin + p)
    {
      VisibleInChunk(text, at, at + |chunk|, lo, hi, p);
      assert chunk[p - at] == text[p];
      var i :| 0 <= i < |segs| && Holds(segs[i], origin + at + (p - at));
      assert origin + at + (p - at) == origin + p;
    }
  }

  lemma VisibleInChunk(text: string, from: nat, to: nat, lo: nat, hi: nat, p: nat)
    requires lo <= from <= to <= hi <= |text| && lo <= p < hi && !IsSpace(text[p])
    requires Blank(text, lo, from) && Blank(text, to, hi)
    ensures from <= p < to
  {
    hide IsSpace;
  }

  lemma PlacedRebase(s: Segment, chunk: string, text: string, origin: int, at: nat, lo: nat, hi: nat)
    requires lo <= at <= at + |chunk| <= hi <= |text| && chunk == text[at..at + |chunk|]
    requires PlacedOne(s, chunk, origin + at, 0, |chunk|)
    ensures PlacedOne(s, text, origin, lo, hi)
  {
    hide IsSpace;
    SliceOfSlice(text, at, at + |chunk|, s.start - origin - at, s.end - origin - at);
  }

  lemma BlankTiles(text: string, origin: int, lo: nat, hi: nat)
    requires lo <= hi <= |text| && Blank(text, lo, hi)
    ensures Tiles([], text, origin, lo, hi)
  {
  }

  lemma {:induction false} RangesTile(text: string, w: nat, maxTokens: int, origin: int, start: nat)
    requires start <= |text| && w >= 1
    ensures Tiles(Ranges(text, w, maxTokens, origin, start), text, origin, start, |text|)
    decreases w, |text| - start, 1
  {
    if start == |text| {
      BlankTiles(text, origin, start, |text|);
    } else {
      var b := FindBoundary(text, start, Min(|text|, start + w));
      CutChunkTiles(text, w, maxTokens, origin, start, b);
      RangesTile(text, w, maxTokens, origin, b);
      TilesConcat(CutChunk(text[start..b], w, maxTokens, origin + start), Ranges(text, w, maxTokens, origin, b),
                  text, origin, start, b, |text|);
    }
  }

  lemma {:induction false} CutChunkTiles(text: string, w: nat, maxTokens: int, origin: int, start: nat, b: nat)
    requires start <= b <= |text| && w >= 1
    ensures Tiles(CutChunk(text[start..b], w, maxTokens, origin + start), text, origin, start, b)
    decreases w, b - start, 0
  {
    hide Strip, LStrip, IsSpace, FindBoundary, Ranges, EstimateTokens, PlacedOne;
    var chunk := Strip(text[start..b]);
    var at := ChunkPlace(text, start, b);
    var segs := CutChunk(text[start..b], w, maxTokens, origin + start);
    if chunk == [] {
      BlankTiles(text, origin, start, b);
    } else {
      if TooHeavy(chunk, w, maxTokens) {
        assert segs == Ranges(chunk, NarrowWindow(w), maxTokens, origin + at, 0);
        RangesTile(chunk, NarrowWindow(w), maxTokens, origin + at, 0);
      } else {
        WholeTiles(chunk, origin + at);
      }
      TilesRebase(segs, chunk, text, origin, at, start, b);
    }
  }

  /** Where the stripped chunk of `text[start..b]` lies in `text`. */
  lemma ChunkPlace(text: string, start: nat, b: nat) returns (at: nat)
    requires start <= b <= |text|
    ensures var raw, chunk := text[start..b], Strip(text[start..b]);
            && at == start + |raw| - |LStrip(raw)|
            && start <= at <= at + |chunk| <= b
            && chunk == text[at..at + |chunk|]
            && Blank(text, start, at) && Blank(text, at + |chunk|, b)
            && (chunk == [] ==> at == b)
            && (chunk != [] ==> !IsSpace(chunk[0]) && !IsSpace(chunk[|chunk| - 1]))
  {
    var raw, chunk := text[start..b], Strip(text[start..b]);
    var lead := |raw| - |LStrip(raw)|;
    at := start + lead;
    StripPlace(raw);
    SliceOfSlice(text, start, b, lead, lead + |chunk|);
    BlankInSlice(text, start, b, 0, lead);
    BlankInSlice(text, start, b, lead + |chunk|, |raw|);
  }

  lemma BlankInSlice(text: string, a: nat, b: nat, i: nat, j: nat)
    requires a <= b <= |text| && i <= j <= b - a
    requires Blank(text[a..b], i, j)
    ensures Blank(text, a + i, a + j)
  {
    forall p | a + i <= p < a + j
      ensures IsSpace(text[p])
    {
      assert text[a..b][p - a] == text[p];
    }
  }

  lemma SliceOfSlice(text: string, a: nat, b: nat, i: nat, j: nat)
    requires a <= b <= |text| && i <= j <= b - a
    ensures text[a..b][i..j] == text[a + i..a + j]
  {
    forall k | 0 <= k < j - i
      ensures text[a..b][i..j][k] == text[a + i..a + j][k]
    {
    }
  }

  lemma WholeTiles(chunk: string, origin: int)
    requires chunk != [] && !IsSpace(chunk[0]) && !IsSpace(chunk[|chunk| - 1])
    ensures Tiles([Segment(chunk, origin, origin + |chunk|)], chunk, origin, 0, |chunk|)
  {
    var one := [Segment(chunk, origin, origin + |chunk|)];
    assert chunk == chunk[0..|chunk|];
    forall p | 0 <= p < |chunk| && !IsSpace(chunk[p])
      ensures exists i :: 0 <= i < |one| && Holds(one[i], origin + p)
    {
      assert Holds(one[0], origin + p);
    }
  }

  // ---------------------------------------------------------------- theorems

  ghost predicate HoldsVisible(segs: seq<Segment>, i: int, p: int) {
    0 <= i < |segs| && Holds(segs[i], p)
  }

  /**
   The splitter loses nothing: segments are in strictly increasing disjoint ranges, each is the original text
   at its own offsets (however deep the recursion that found it), and every visible character lies in exactly one.
   */
  lemma SplitIsLossless(text: string, w: nat, maxTokens: int)
    requires w >= 1
    ensures var segs := Ranges(text, w, maxTokens, 0, 0);
            && (forall i :: 0 <= i < |segs| ==>
                  0 <= segs[i].start < segs[i].end <= |text| && segs[i].content == text[segs[i].start..segs[i].end])
            && (forall i, j :: 0 <= i < j < |segs| ==> segs[i].end <= segs[j].start)
            && (forall p :: 0 <= p < |text| && !IsSpace(text[p]) ==> exists i :: HoldsVisible(segs, i, p))
            && (forall p, i, j :: HoldsVisible(segs, i, p) && HoldsVisible(segs, j, p) ==> i == j)
  {
    hide Ranges, IsSpace;
    var segs := Ranges(text, w, maxTokens, 0, 0);
    RangesTile(text, w, maxTokens, 0, 0);
    forall i | 0 <= i < |segs|
      ensures 0 <= segs[i].start < segs[i].end <= |text| && segs[i].content == text[segs[i].start..segs[i].end]
    {
      assert PlacedOne(segs[i], text, 0, 0, |text|);
    }
    forall p | 0 <= p < |text| && !IsSpace(text[p])
      ensures exists i :: HoldsVisible(segs, i, p)
    {
      var i :| 0 <= i < |segs| && Holds(segs[i], 0 + p);
      assert HoldsVisible(segs, i, p);
    }
  }

  lemma {:induction false} ZeroWindowFindsNothing(text: string, maxTokens: int, start: nat)
    requires start <= |text|
    ensures Ranges(text, 0, maxTokens, 0, start) == []
    decreases |text| - start
  {
    hide Strip, IsSpace, MarkerCut, EstimateTokens;
    if start < |text| {
      var b := FindBoundary(text, start, start);
      assert MarkerCut(text[start..start], MARKERS) == -1;
      assert b == start && text[start..b] == "";
      StripPlace("");
      ZeroWindowFindsNothing(text, maxTokens, start + 1);
    }
  }

  /** Counting a negative window from the end of the text always stops short of its last character. */
  lemma {:induction false} NegativeWindowStopsShort(text: string, w: int, maxTokens: int, start: nat)
    requires start <= |text| && w < 0
    ensures forall s :: s in Ranges(text, w, maxTokens, 0, start) ==> s.end < |text|
    decreases |text| - start
  {
    hide Strip, LStrip, IsSpace, MarkerCut, EstimateTokens, CutChunk;
    if start < |text| {
      var b := FindBoundary(text, start, start + w);
      var raw := Slice(text, start, b);
      assert start + |raw| < |text|;
      ChunkEndsInside(raw, w, maxTokens, start);
      NegativeWindowStopsShort(text, w, maxTokens, Max(b, start + 1));
    }
  }

  lemma ChunkEndsInside(raw: string, w: int, maxTokens: int, at: int)
    requires w < 0
    ensures forall s :: s in CutChunk(raw, w, maxTokens, at) ==> s.end <= at + |raw|
  {
    hide IsSpace, EstimateTokens, Ranges;
    StripPlace(raw);
  }

  /** Every visible character of the text is in some segment. */
  ghost predicate Lossless(text: string, w: int, maxTokens: int) {
    Covers(Ranges(text, w, maxTokens, 0, 0), text, 0, 0, |text|)
  }

  /**
   Nothing visible is lost with a window of at least one, and with a window of zero everything is. A negative window
   loses at least the last character, so a text that ends visibly is kept exactly by the positive windows.
   */
  lemma LosslessIff(text: string, w: int, maxTokens: int)
    ensures w >= 0 ==> (Lossless(text, w, maxTokens) <==> w >= 1 || Blank(text, 0, |text|))
    ensures text != "" && !IsSpace(text[|text| - 1]) ==> (Lossless(text, w, maxTokens) <==> w >= 1)
  {
    hide Ranges, IsSpace;
    if w >= 1 {
      RangesTile(text, w, maxTokens, 0, 0);
    } else if w == 0 {
      ZeroWindowFindsNothing(text, maxTokens, 0);
    } else {
      NegativeWindowStopsShort(text, w, maxTokens, 0);
      LastIsMissed(text, Ranges(text, w, maxTokens, 0, 0));
    }
  }

  lemma LastIsMissed(text: string, segs: seq<Segment>)
    requires forall s :: s in segs ==> s.end < |text|
    ensures text != "" && !IsSpace(text[|text| - 1]) ==> !Covers(segs, text, 0, 0, |text|)
  {
    forall i | 0 <= i < |segs|
      ensures !Holds(segs[i], 0 + (|text| - 1))
    {
      assert segs[i] in segs;
    }
  }

  /** The splitter loses nothing of any text exactly when the window is at least one. */
  lemma AlwaysLosslessIff(w: int, maxTokens: int)
    ensures (forall text :: Lossless(text, w, maxTokens)) <==> w >= 1
  {
    hide Lossless;
    forall text
      ensures w >= 1 ==> Lossless(text, w, maxTokens)
    {
      LosslessIff(text, w, maxTokens);
    }
    LosslessIff("ab", w, maxTokens);
  }

  ghost predicate Bounded(s: Segment, w: nat, maxTokens: int) {
    && |s.content| <= w
    && (EstimateTokens(s.content) <= maxTokens || |s.content| <= MIN_WINDOW)
  }

  lemma RawFits(text: string, w: nat, start: nat)
    requires start < |text|
    ensures var b := FindBoundary(text, start, Min(|text|, start + w));
            b <= |text| && |Slice(text, start, b)| <= w
  {
    hide MarkerCut;
  }

  lemma {:induction false} RangesBounded(text: string, w: nat, maxTokens: int, origin: int, start: nat)
    requires start <= |text|
    ensures forall s :: s in Ranges(text, w, maxTokens, origin, start) ==> Bounded(s, w, maxTokens)
    decreases w, |text| - start, 1
  {
    hide CutChunk, Bounded, FindBoundary, Slice;
    if start < |text| {
      var b := FindBoundary(text, start, Min(|text|, start + w));
      RawFits(text, w, start);
      CutChunkBounded(Slice(text, start, b), w, maxTokens, origin + start);
      RangesBounded(text, w, maxTokens, origin, Max(b, start + 1));
    }
  }

  lemma {:induction false} CutChunkBounded(raw: string, w: nat, maxTokens: int, at: int)
    requires |raw| <= w
    ensures forall s :: s in CutChunk(raw, w, maxTokens, at) ==> Bounded(s, w, maxTokens)
    decreases w, |raw|, 0
  {
    hide LStrip, EstimateTokens, Ranges;
    var chunk := Strip(raw);
    if chunk != [] && TooHeavy(chunk, w, maxTokens) {
      RangesBounded(chunk, NarrowWindow(w), maxTokens, at + (|raw| - |LStrip(raw)|), 0);
    }
  }

  /**
   No segment is longer than the window, and one over the token limit is at most 1024 characters long. With the
   default limits every segment therefore fits the model's budget of 32,000 tokens.
   */
  lemma SegmentsFitTheBudget(text: string, w: nat, maxTokens: int, s: Segment)
    requires s in Ranges(text, w, maxTokens, 0, 0)
    ensures |s.content| <= w
    ensures EstimateTokens(s.content) <= maxTokens || |s.content| <= MIN_WINDOW
    ensures maxTokens >= MIN_WINDOW ==> EstimateTokens(s.content) <= maxTokens
    ensures maxTokens == DEFAULT_SEGMENT_TOKENS ==> EstimateTokens(s.content) <= 32_000
  {
    hide Ranges;
    RangesBounded(text, w, maxTokens, 0, 0);
    assert Bounded(s, w, maxTokens);
    EstimateBounds(s.content);
  }

  ghost predicate FitWindow(text: string, w: int, maxTokens: int) {
    forall s :: s in Ranges(text, w, maxTokens, 0, 0) ==> |s.content| <= w
  }

  /** Segments of every text stay within the window exactly when it is not negative. */
  lemma FitWindowIff(w: int, maxTokens: int)
    ensures (forall text :: FitWindow(text, w, maxTokens)) <==> w >= 0
  {
    if w >= 0 {
      forall text
        ensures FitWindow(text, w, maxTokens)
      {
        forall s | s in Ranges(text, w, maxTokens, 0, 0)
          ensures |s.content| <= w
        {
          SegmentsFitTheBudget(text, w, maxTokens, s);
        }
      }
    } else {
      OneLetterSegment(w, maxTokens);
      assert !FitWindow(seq(1 - w, _ => 'a'), w, maxTokens);
    }
  }

  /** A text one longer than a negative window is deep begins with a segment of one letter. */
  lemma OneLetterSegment(w: int, maxTokens: int)
    requires w < 0
    ensures Segment("a", 0, 1) in Ranges(seq(1 - w, _ => 'a'), w, maxTokens, 0, 0)
  {
    hide EstimateTokens;
    var text := seq(1 - w, _ => 'a');
    assert Slice(text, 0, w) == "a";
    assert MarkerCut("a", MARKERS) == -1;
    assert Strip("a") == "a" && LStrip("a") == "a" by {
      assert SkipSpaces("a", 0) == 0;
    }
    assert CutChunk("a", w, maxTokens, 0) == [Segment("a", 0, 1)];
  }

  // ---------------------------------------------------------------- no more segments than needed

  /** The boundary of the chunk that begins at `start`. */
  function ChunkEnd(text: string, w: nat, start: nat): (b: nat)
    requires start <= |text|
    ensures start <= b <= |text|
    ensures w >= 1 && start < |text| ==> b > start && (b < |text| ==> b >= start + w / 2 + 1)
  {
    FindBoundary(text, start, Min(|text|, start + w))
  }

  /** Every chunk from `start` on, between consecutive boundaries, is within the token limit when stripped. */
  ghost predicate AllLight(text: string, w: nat, maxTokens: int, start: nat)
    requires start <= |text| && w >= 1
    decreases |text| - start
  {
    start < |text| ==>
      && (Strip(text[start..ChunkEnd(text, w, start)]) != "" ==>
            EstimateTokens(Strip(text[start..ChunkEnd(text, w, start)])) <= maxTokens)
      && AllLight(text, w, maxTokens, ChunkEnd(text, w, start))
  }

  /** Light chunks from `start` on, cut at consecutive boundaries: one segment each, none for blank ones. */
  ghost function WholeChunks(text: string, w: nat, start: nat): seq<Segment>
    requires start <= |text| && w >= 1
    decreases |text| - start
  {
    if start == |text| then []
    else
      var raw := text[start..ChunkEnd(text, w, start)];
      var from := start + |raw| - |LStrip(raw)|;
      (if Strip(raw) == "" then [] else [Segment(Strip(raw), from, from + |Strip(raw)|)])
      + WholeChunks(text, w, ChunkEnd(text, w, start))
  }

  lemma LightChunk(raw: string, w: int, maxTokens: int, at: int)
    requires Strip(raw) == "" || EstimateTokens(Strip(raw)) <= maxTokens || w <= 1024
    ensures var from := at + |raw| - |LStrip(raw)|;
            CutChunk(raw, w, maxTokens, at) == if Strip(raw) == "" then [] else [Segment(Strip(raw), from, from + |Strip(raw)|)]
  {
    hide Strip, LStrip, EstimateTokens, Ranges;
  }

  /** Text whose chunks are all within the limit is cut at the boundaries and nowhere else. */
  lemma {:induction false} LightTextStaysWhole(text: string, w: nat, maxTokens: int, start: nat)
    requires start <= |text| && w >= 1 && AllLight(text, w, maxTokens, start)
    ensures Ranges(text, w, maxTokens, 0, start) == WholeChunks(text, w, start)
    ensures |Ranges(text, w, maxTokens, 0, start)| <= |text| - start
    decreases |text| - start
  {
    hide Strip, LStrip, EstimateTokens, CutChunk, Ranges, ChunkEnd, Slice;
    if start < |text| {
      var b := ChunkEnd(text, w, start);
      LightChunk(text[start..b], w, maxTokens, start);
      RangesAtChunkEnd(text, w, maxTokens, start);
      LightTextStaysWhole(text, w, maxTokens, b);
    } else {
      RangesEnd(text, w, maxTokens, 0);
    }
  }

  lemma RangesAtChunkEnd(text: string, w: nat, maxTokens: int, start: nat)
    requires start < |text| && w >= 1
    ensures var b := ChunkEnd(text, w, start);
            Ranges(text, w, maxTokens, 0, start) == CutChunk(text[start..b], w, maxTokens, start) + Ranges(text, w, maxTokens, 0, b)
  {
    hide CutChunk, FindBoundary;
  }

  /** And every chunk but the last covers more than half a window. */
  lemma {:induction false} FewChunks(text: string, w: nat, start: nat, step: nat)
    requires start <= |text| && w >= 1 && step == w / 2 + 1
    ensures |WholeChunks(text, w, start)| * step <= |text| - start + step
    decreases |text| - start
  {
    hide Strip, LStrip, ChunkEnd;
    if start < |text| {
      var b := ChunkEnd(text, w, start);
      var rest := WholeChunks(text, w, b);
      FewChunks(text, w, b, step);
      assert |WholeChunks(text, w, start)| <= 1 + |rest|;
      OneMore(|WholeChunks(text, w, start)|, |rest|, step);
    }
  }

  lemma OneMore(a: nat, b: nat, step: nat)
    requires a <= 1 + b
    ensures a * step <= step + b * step
  {
    TimesMonotone(a, 1 + b, step);
    assert (1 + b) * step == step + b * step;
  }

  /**
   A text whose chunks are within the token limit is cut at natural boundaries and nowhere else, so into at most
   `n/(w/2+1)+1` segments.
   */
  lemma LightTextHasFewSegments(text: string, w: nat, maxTokens: int)
    requires w >= 1 && AllLight(text, w, maxTokens, 0)
    ensures Ranges(text, w, maxTokens, 0, 0) == WholeChunks(text, w, 0)
    ensures |Ranges(text, w, maxTokens, 0, 0)| <= |text| / (w / 2 + 1) + 1
  {
    hide Ranges, WholeChunks;
    LightTextStaysWhole(text, w, maxTokens, 0);
    FewChunks(text, w, 0, w / 2 + 1);
    FewerThan(|WholeChunks(text, w, 0)|, w / 2 + 1, |text|);
  }

  lemma FewerThan(n: nat, step: nat, length: nat)
    requires step >= 1 && n * step <= length + step
    ensures n <= length / step + 1
  {
    if n > 0 {
      assert (n - 1) * step <= length;
      QuotientBound(n - 1, step, length);
    }
  }

  /** Where a chunk holds no marker character the window is used to the full. */
  lemma PlainWindow(window: string)
    requires forall i :: 0 <= i < |window| ==> window[i] == 'a'
    ensures MarkerCut(window, MARKERS) == -1
  {
    hide MarkerCut;
    assert forall k :: 0 <= k < |MARKERS| ==> |MARKERS[k]| > 0 && MARKERS[k][0] != 'a';
    MarkerCutChoice(window, MARKERS);
    forall k, i | 0 <= k < |MARKERS|
      ensures !OccursAt(window, MARKERS[k], i)
    {
      if 0 <= i && i + |MARKERS[k]| <= |window| {
        assert window[i..i + |MARKERS[k]|][0] == window[i];
      }
    }
  }

  lemma PlainChunk(s: string)
    requires |s| > 0 && forall i :: 0 <= i < |s| ==> s[i] == 'a'
    ensures Strip(s) == s && LStrip(s) == s && EstimateTokens(s) == Max(1, |s| / 4)
  {
    assert SkipSpaces(s, 0) == 0;
    assert TrimEnd(s, 0, |s|) == |s|;
    AsciiCountAll(s);
  }

  /** 100,000 letters with the default limits: two segments of 18,000 and 7,000 tokens. */
  lemma DefaultLimitsExample(text: string)
    requires |text| == 100_000 && forall i :: 0 <= i < |text| ==> text[i] == 'a'
    ensures Ranges(text, 72_000, 32_000, 0, 0) ==
              [Segment(text[..72_000], 0, 72_000), Segment(text[72_000..], 72_000, 100_000)]
    ensures EstimateTokens(text[..72_000]) == 18_000 && EstimateTokens(text[72_000..]) == 7_000
  {
    hide Strip, LStrip, EstimateTokens, MarkerCut;
    var a, b := text[0..72_000], text[72_000..100_000];
    PlainWindow(a);
    PlainChunk(a);
    PlainChunk(b);
    LightChunk(a, 72_000, 32_000, 0);
    LightChunk(b, 72_000, 32_000, 72_000);
    assert FindBoundary(text, 0, 72_000) == 72_000;
    assert Ranges(text, 72_000, 32_000, 0, 100_000) == [];
    assert Ranges(text, 72_000, 32_000, 0, 72_000) == CutChunk(b, 72_000, 32_000, 72_000) + [];
    assert a == text[..72_000] && b == text[72_000..];
  }

  // ---------------------------------------------------------------- numbered queue segments

  /** `f"{n:03d}"`. */
  function PadThree(n: nat): string {
    var d := Decimal(n);
    if |d| == 1 then "00" + d else if |d| == 2 then "0" + d else d
  }

  function SegmentId(index: nat): string {
    "seg_" + PadThree(index)
  }

  lemma PadThreeParses(n: nat)
    ensures ParseDecimal(PadThree(n)) == n
  {
    DecimalRoundTrip(n);
    var d := Decimal(n);
    if |d| == 1 {
      LeadingZero("0" + d);
      assert "00" + d == "0" + ("0" + d);
      LeadingZero(d);
    } else if |d| == 2 {
      LeadingZero(d);
    }
  }

  lemma {:induction false} LeadingZero(s: string)
    ensures ParseDecimal("0" + s) == ParseDecimal(s)
  {
    var z := "0" + s;
    if |s| == 0 {
      assert z[..0] == "" && z[0] == '0';
    } else {
      assert z[..|z| - 1] == "0" + s[..|s| - 1];
      LeadingZero(s[..|s| - 1]);
    }
  }

  /** Two segments of one plan never share an id. */
  lemma SegmentIdsDiffer(i: nat, j: nat)
    requires SegmentId(i) == SegmentId(j)
    ensures i == j
  {
    assert SegmentId(i)[4..] == PadThree(i);
    assert SegmentId(j)[4..] == PadThree(j);
    PadThreeParses(i);
    PadThreeParses(j);
  }
}
