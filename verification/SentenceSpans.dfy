/** Spans of a text and their languages (backend/shared/text/language_detection.py). The detector itself is a
    parameter: None stands for the errors it raises. */
module SentenceSpans {
  import opened Basics
  import opened TextChunking

  datatype Span = Span(start: int, end: int)

  datatype Labelled = Labelled(span: Span, lang: string)

  function Length(s: Span): int { s.end - s.start }

  ghost predicate Ordered(spans: seq<Span>) {
    && (forall i :: 0 <= i < |spans| ==> spans[i].start < spans[i].end)
    && (forall i, j :: 0 <= i < j < |spans| ==> spans[i].end <= spans[j].start)
  }

  ghost predicate Within(spans: seq<Span>, n: int) {
    forall i :: 0 <= i < |spans| ==> 0 <= spans[i].start && spans[i].end <= n
  }

  // ------------------------------------------------------------------ separators

  function SpacesEnd(text: string, p: nat): (q: nat)
    requires p <= |text|
    ensures p <= q <= |text|
    ensures p < |text| && IsSpace(text[p]) ==> p < q
    decreases |text| - p
  {
    if p < |text| && IsSpace(text[p]) then SpacesEnd(text, p + 1) else p
  }

  function BreaksEnd(text: string, p: nat): (q: nat)
    requires p <= |text|
    ensures p <= q <= |text|
    ensures p < |text| && text[p] == '\n' ==> p < q
    decreases |text| - p
  {
    if p < |text| && text[p] == '\n' then BreaksEnd(text, p + 1) else p
  }

  /** Matches from position p on: the white space after a sentence end, or else a run of line breaks. */
  function Separators(text: string, p: nat): seq<Span>
    requires p <= |text|
    decreases |text| - p
  {
    if p == |text| then []
    else if p > 0 && EndsSentence(text[p - 1]) && IsSpace(text[p]) then
      [Span(p, SpacesEnd(text, p))] + Separators(text, SpacesEnd(text, p))
    else if text[p] == '\n' then [Span(p, BreaksEnd(text, p))] + Separators(text, BreaksEnd(text, p))
    else Separators(text, p + 1)
  }

  /** Ordered spans between p and n. */
  ghost predicate Between(spans: seq<Span>, p: int, n: int) {
    Ordered(spans) && forall i :: 0 <= i < |spans| ==> p <= spans[i].start && spans[i].end <= n
  }

  lemma BetweenFrom(spans: seq<Span>, p: int, q: int, n: int)
    requires Between(spans, q, n) && p <= q
    ensures Between(spans, p, n)
  {
  }

  lemma PutFirst(s: Span, rest: seq<Span>, p: int, n: int)
    requires p <= s.start < s.end <= n && Between(rest, s.end, n)
    ensures Between([s] + rest, p, n)
  {
  }

  lemma PutLast(spans: seq<Span>, s: Span, p: int, n: int)
    requires p <= s.start < s.end <= n && Between(spans, p, s.start)
    ensures Between(spans + [s], p, n)
  {
  }

  lemma {:induction false} SeparatorsAreOrdered(text: string, p: nat)
    requires p <= |text|
    ensures Between(Separators(text, p), p, |text|)
    decreases |text| - p
  {
    if p == |text| {
    } else if p > 0 && EndsSentence(text[p - 1]) && IsSpace(text[p]) {
      var q := SpacesEnd(text, p);
      SeparatorsAreOrdered(text, q);
      PutFirst(Span(p, q), Separators(text, q), p, |text|);
    } else if text[p] == '\n' {
      var q := BreaksEnd(text, p);
      SeparatorsAreOrdered(text, q);
      PutFirst(Span(p, q), Separators(text, q), p, |text|);
    } else {
      SeparatorsAreOrdered(text, p + 1);
      BetweenFrom(Separators(text, p + 1), p, p + 1, |text|);
    }
  }

  // ------------------------------------------------------------------ pieces between separators

  function GapStart(separators: seq<Span>, i: nat): int
    requires i <= |separators|
  {
    if i == 0 then 0 else separators[i - 1].end
  }

  /** What lies before separator i, or after the last one. */
  function Gap(separators: seq<Span>, n: int, i: nat): Span
    requires i <= |separators|
  {
    Span(GapStart(separators, i), if i == |separators| then n else separators[i].start)
  }

  function LongGaps(separators: seq<Span>, n: int, i: nat): seq<Span>
    requires i <= |separators|
  {
    if i == 0 then []
    else
      var gap := Gap(separators, n, i - 1);
      LongGaps(separators, n, i - 1) + if Length(gap) >= 10 then [gap] else []
  }

  predicate Chosen(separators: seq<Span>, n: int, i: nat)
    requires i <= |separators|
  {
    var gap := Gap(separators, n, i);
    if i < |separators| then Length(gap) >= 10 else Length(gap) > 0
  }

  /** The chosen gaps, each once, in order: those of at least ten characters and any rest. */
  ghost predicate ChosenGaps(separators: seq<Span>, n: int, chunks: seq<Span>) {
    && Ordered(chunks)
    && (forall s :: s in chunks ==> exists i :: 0 <= i <= |separators| && Chosen(separators, n, i) && s == Gap(separators, n, i))
    && (forall i :: 0 <= i <= |separators| && Chosen(separators, n, i) ==> Gap(separators, n, i) in chunks)
  }

  ghost predicate ChosenUpTo(separators: seq<Span>, n: int, chunks: seq<Span>, k: nat)
    requires k <= |separators| + 1
  {
    && (forall s :: s in chunks ==> exists i :: 0 <= i < k && Chosen(separators, n, i) && s == Gap(separators, n, i))
    && (forall i :: 0 <= i < k && Chosen(separators, n, i) ==> Gap(separators, n, i) in chunks)
  }

  lemma GapPlace(separators: seq<Span>, n: int, i: nat)
    requires Between(separators, 0, n) && i <= |separators| && n >= 0
    ensures 0 <= GapStart(separators, i) <= Gap(separators, n, i).end <= n
    ensures i < |separators| ==> Gap(separators, n, i).end < GapStart(separators, i + 1)
  {
  }

  lemma {:induction false} LongGapsChosen(separators: seq<Span>, n: int, k: nat)
    requires Between(separators, 0, n) && k <= |separators| && n >= 0
    ensures ChosenUpTo(separators, n, LongGaps(separators, n, k), k)
    ensures Between(LongGaps(separators, n, k), 0, GapStart(separators, k))
  {
    if k > 0 {
      LongGapsChosen(separators, n, k - 1);
      GapPlace(separators, n, k - 1);
      var before, gap := LongGaps(separators, n, k - 1), Gap(separators, n, k - 1);
      if Length(gap) >= 10 {
        assert Chosen(separators, n, k - 1);
        assert LongGaps(separators, n, k) == before + [gap];
        PutLast(before, gap, 0, GapStart(separators, k));
      } else {
        assert LongGaps(separators, n, k) == before;
      }
    }
  }

  lemma LongGapsAndRest(separators: seq<Span>, n: int, chunks: seq<Span>)
    requires Between(separators, 0, n) && n >= 0
    requires
      var rest := Gap(separators, n, |separators|);
      chunks == if Length(rest) > 0 then LongGaps(separators, n, |separators|) + [rest] else LongGaps(separators, n, |separators|)
    ensures ChosenGaps(separators, n, chunks) && Between(chunks, 0, n)
  {
    var k := |separators|;
    LongGapsChosen(separators, n, k);
    GapPlace(separators, n, k);
    var before, rest := LongGaps(separators, n, k), Gap(separators, n, k);
    if Length(rest) > 0 {
      assert Chosen(separators, n, k);
      PutLast(before, rest, 0, n);
      assert forall s :: s in before + [rest] ==> s in before || s == rest;
    }
  }

  method SentenceChunks(text: string) returns (chunks: seq<Span>)
    ensures ChosenGaps(Separators(text, 0), |text|, chunks) && Within(chunks, |text|)
  {
    var separators := Separators(text, 0);
    SeparatorsAreOrdered(text, 0);
    chunks := [];
    var last := 0;
    for i := 0 to |separators|
      invariant last == GapStart(separators, i) && chunks == LongGaps(separators, |text|, i)
    {
      var start, end := last, separators[i].start;
      if end > start && end - start >= 10 {
        chunks := chunks + [Span(start, end)];
      }
      last := separators[i].end;
    }
    if last < |text| {
      chunks := chunks + [Span(last, |text|)];
    }
    LongGapsAndRest(separators, |text|, chunks);
  }

  // ------------------------------------------------------------------ merging

  /** Chunks a .. b make up the shortest run of at least 30 characters from a, or there are no more. */
  ghost predicate ShortestRun(chunks: seq<Span>, a: int, b: int) {
    && 0 <= a < b <= |chunks|
    && (forall m :: a <= m < b - 1 ==> chunks[m].end - chunks[a].start < 30)
    && (b < |chunks| ==> chunks[b - 1].end - chunks[a].start >= 30)
  }

  ghost predicate RunsUpTo(chunks: seq<Span>, cuts: seq<int>, i: int) {
    && |cuts| > 0 && cuts[0] == 0 && cuts[|cuts| - 1] == i
    && (forall j :: 0 <= j < |cuts| - 1 ==> ShortestRun(chunks, cuts[j], cuts[j + 1]))
  }

  /** The chunks are cut into consecutive shortest runs. */
  ghost predicate ShortestRuns(chunks: seq<Span>, cuts: seq<int>) { RunsUpTo(chunks, cuts, |chunks|) }

  /** The span from the start of chunk a to the end of the chunk before b. */
  ghost predicate IsHull(chunks: seq<Span>, a: int, b: int, s: Span) {
    0 <= a < |chunks| && 0 < b <= |chunks| && s == Span(chunks[a].start, chunks[b - 1].end)
  }

  ghost predicate HullsOf(chunks: seq<Span>, cuts: seq<int>, merged: seq<Span>) {
    && |merged| == |cuts| - 1
    && (forall j :: 0 <= j < |merged| ==> IsHull(chunks, cuts[j], cuts[j + 1], merged[j]))
  }

  /** Each span covers one of the shortest runs that the chunks are cut into. */
  ghost predicate MergedFrom(chunks: seq<Span>, merged: seq<Span>) {
    exists cuts :: ShortestRuns(chunks, cuts) && HullsOf(chunks, cuts, merged)
  }

  method MergeShort(chunks: seq<Span>) returns (merged: seq<Span>)
    ensures MergedFrom(chunks, merged)
  {
    ghost var cuts := [0];
    merged := [];
    var i := 0;
    while i < |chunks|
      invariant 0 <= i <= |chunks|
      invariant RunsUpTo(chunks, cuts, i) && HullsOf(chunks, cuts, merged)
    {
      var start, end := chunks[i].start, chunks[i].end;
      ghost var first := i;
      while i + 1 < |chunks| && end - start < 30
        invariant first <= i < |chunks| && end == chunks[i].end
        invariant forall m :: first <= m < i ==> chunks[m].end - chunks[first].start < 30
      {
        i := i + 1;
        end := chunks[i].end;
      }
      merged := merged + [Span(start, end)];
      i := i + 1;
      assert ShortestRun(chunks, first, i);
      cuts := cuts + [i];
    }
    assert ShortestRuns(chunks, cuts) && HullsOf(chunks, cuts, merged);
  }

  lemma {:induction false} SameCuts(chunks: seq<Span>, a: seq<int>, b: seq<int>, k: nat)
    requires ShortestRuns(chunks, a) && ShortestRuns(chunks, b) && k < |a|
    ensures k < |b| && a[k] == b[k]
  {
    if k > 0 {
      SameCuts(chunks, a, b, k - 1);
      assert ShortestRun(chunks, a[k - 1], a[k]);
      assert ShortestRun(chunks, b[k - 1], b[k - 1 + 1]);
    }
  }

  /** There is one way to cut. */
  lemma RunsAreUnique(chunks: seq<Span>, a: seq<int>, b: seq<int>)
    requires ShortestRuns(chunks, a) && ShortestRuns(chunks, b)
    ensures a == b
  {
    SameCuts(chunks, a, b, |a| - 1);
    SameCuts(chunks, b, a, |b| - 1);
    forall k | 0 <= k < |a| ensures a[k] == b[k] {
      SameCuts(chunks, a, b, k);
    }
  }

  lemma {:induction false} CutsRise(chunks: seq<Span>, cuts: seq<int>, i: nat, j: nat)
    requires ShortestRuns(chunks, cuts) && i <= j < |cuts|
    ensures cuts[i] + (j - i) <= cuts[j] <= |chunks|
    decreases j - i
  {
    if i < j {
      CutsRise(chunks, cuts, i, j - 1);
      assert ShortestRun(chunks, cuts[j - 1], cuts[j - 1 + 1]);
    } else if i + 1 < |cuts| {
      assert ShortestRun(chunks, cuts[i], cuts[i + 1]);
    }
  }

  /** The chunks determine the merged spans. */
  lemma MergeIsUnique(chunks: seq<Span>, a: seq<Span>, b: seq<Span>)
    requires MergedFrom(chunks, a) && MergedFrom(chunks, b)
    ensures a == b
  {
    var s :| ShortestRuns(chunks, s) && HullsOf(chunks, s, a);
    var t :| ShortestRuns(chunks, t) && HullsOf(chunks, t, b);
    RunsAreUnique(chunks, s, t);
    forall j | 0 <= j < |a| ensures a[j] == b[j] {
      assert IsHull(chunks, s[j], s[j + 1], a[j]) && IsHull(chunks, t[j], t[j + 1], b[j]);
    }
  }

  /** Merged spans stay in order, and all but the last have at least 30 characters. */
  lemma MergedSpansAreOrderedAndLong(chunks: seq<Span>, cuts: seq<int>, merged: seq<Span>)
    requires Ordered(chunks) && ShortestRuns(chunks, cuts) && HullsOf(chunks, cuts, merged)
    ensures Ordered(merged)
    ensures forall j :: 0 <= j < |merged| - 1 ==> Length(merged[j]) >= 30
  {
    forall j | 0 <= j < |merged|
      ensures merged[j].start < merged[j].end
      ensures j < |merged| - 1 ==> Length(merged[j]) >= 30
    {
      assert ShortestRun(chunks, cuts[j], cuts[j + 1]);
      if j < |merged| - 1 {
        CutsRise(chunks, cuts, j + 1, |cuts| - 1);
      }
    }
    forall i, j | 0 <= i < j < |merged| ensures merged[i].end <= merged[j].start {
      CutsRise(chunks, cuts, i + 1, j);
      assert IsHull(chunks, cuts[i], cuts[i + 1], merged[i]) && IsHull(chunks, cuts[j], cuts[j + 1], merged[j]);
    }
  }

  predicate Covers(s: Span, t: Span) { s.start <= t.start && t.end <= s.end }

  lemma {:induction false} RunOf(chunks: seq<Span>, cuts: seq<int>, i: int, n: nat) returns (j: nat)
    requires ShortestRuns(chunks, cuts) && n < |cuts| && 0 <= i < cuts[n]
    ensures j < n && cuts[j] <= i < cuts[j + 1]
  {
    if cuts[n - 1] <= i {
      j := n - 1;
    } else {
      j := RunOf(chunks, cuts, i, n - 1);
    }
  }

  /** Every chunk lies in exactly one merged span. */
  lemma EachChunkInOneSpan(chunks: seq<Span>, cuts: seq<int>, merged: seq<Span>, i: nat)
    requires Ordered(chunks) && ShortestRuns(chunks, cuts) && HullsOf(chunks, cuts, merged) && i < |chunks|
    ensures exists j :: 0 <= j < |merged| && Covers(merged[j], chunks[i])
    ensures forall j, k :: 0 <= j < |merged| && 0 <= k < |merged| && Covers(merged[j], chunks[i]) && Covers(merged[k], chunks[i])
              ==> j == k
  {
    var j := RunOf(chunks, cuts, i, |cuts| - 1);
    assert ShortestRun(chunks, cuts[j], cuts[j + 1]);
    assert Covers(merged[j], chunks[i]);
    MergedSpansAreOrderedAndLong(chunks, cuts, merged);
  }

  predicate Inside(s: Span, p: int) { s.start <= p < s.end }

  /** Place p lies in chunk i, or between it and the one before. */
  predicate AtChunk(chunks: seq<Span>, a: int, i: int, p: int)
    requires 0 <= a <= i < |chunks|
  {
    Inside(chunks[i], p) || (a < i && chunks[i - 1].end <= p < chunks[i].start)
  }

  /** Place p lies in one of the chunks a .. b or between two neighbours among them. */
  ghost predicate InRun(chunks: seq<Span>, a: int, b: int, p: int) {
    exists i :: 0 <= a <= i < b <= |chunks| && AtChunk(chunks, a, i, p)
  }

  lemma {:induction false} InsideRun(chunks: seq<Span>, a: int, b: int, p: int) returns (i: int)
    requires Ordered(chunks) && 0 <= a < b <= |chunks| && chunks[a].start <= p < chunks[b - 1].end
    ensures a <= i < b && AtChunk(chunks, a, i, p)
    decreases b - a
  {
    if chunks[b - 1].start <= p || chunks[b - 2].end <= p {
      i := b - 1;
    } else {
      i := InsideRun(chunks, a, b - 1, p);
    }
  }

  lemma HullCoversRun(chunks: seq<Span>, a: int, b: int, s: Span, p: int)
    requires Ordered(chunks) && 0 <= a < b <= |chunks| && IsHull(chunks, a, b, s)
    ensures Inside(s, p) <==> InRun(chunks, a, b, p)
  {
    if Inside(s, p) {
      var i := InsideRun(chunks, a, b, p);
      assert AtChunk(chunks, a, i, p);
    }
  }

  /** A character lies in the j-th merged span exactly if it lies in a chunk of the j-th run or between two
      neighbours of it; the others, in dropped pieces and separators elsewhere, lie in none. */
  lemma CoveredIff(chunks: seq<Span>, cuts: seq<int>, merged: seq<Span>, p: int)
    requires Ordered(chunks) && ShortestRuns(chunks, cuts) && HullsOf(chunks, cuts, merged)
    ensures forall j :: 0 <= j < |merged| ==> (Inside(merged[j], p) <==> InRun(chunks, cuts[j], cuts[j + 1], p))
  {
    forall j | 0 <= j < |merged|
      ensures Inside(merged[j], p) <==> InRun(chunks, cuts[j], cuts[j + 1], p)
    {
      assert ShortestRun(chunks, cuts[j], cuts[j + 1]) && IsHull(chunks, cuts[j], cuts[j + 1], merged[j]);
      HullCoversRun(chunks, cuts[j], cuts[j + 1], merged[j], p);
    }
  }

  /** There is a span at all exactly if some piece was chosen: "Hi." followed by a line break has none. */
  lemma SpansIffChosen(separators: seq<Span>, n: int, chunks: seq<Span>, merged: seq<Span>)
    requires ChosenGaps(separators, n, chunks) && MergedFrom(chunks, merged)
    ensures merged == [] <==> forall i :: 0 <= i <= |separators| ==> !Chosen(separators, n, i)
  {
    var cuts :| ShortestRuns(chunks, cuts) && HullsOf(chunks, cuts, merged);
    assert merged == [] ==> cuts[|cuts| - 1] == cuts[0];
    if merged != [] {
      assert IsHull(chunks, cuts[0], cuts[1], merged[0]);
      assert chunks[0] in chunks;
    }
    if i :| 0 <= i <= |separators| && Chosen(separators, n, i) {
      assert Gap(separators, n, i) in chunks;
    }
  }

  // ------------------------------------------------------------------ fixed size

  /** Pieces that follow one another from 0 to n, all but the last of the full size, none empty. */
  ghost predicate Tiles(n: int, size: int, chunks: seq<Span>) {
    && (n == 0 <==> chunks == [])
    && (chunks != [] ==> chunks[0].start == 0 && chunks[|chunks| - 1].end == n)
    && (forall i :: 0 <= i < |chunks| ==> 0 < Length(chunks[i]) <= size)
    && (forall i :: 0 <= i < |chunks| - 1 ==> Length(chunks[i]) == size && chunks[i].end == chunks[i + 1].start)
  }

  lemma {:induction false} TileAt(n: int, size: int, chunks: seq<Span>, k: nat)
    requires Tiles(n, size, chunks) && k < |chunks|
    ensures chunks[k] == Span(k * size, if k < |chunks| - 1 then (k + 1) * size else n)
  {
    if k > 0 {
      TileAt(n, size, chunks, k - 1);
      assert chunks[k - 1].end == chunks[k - 1 + 1].start;
    }
  }

  lemma TilesAreUnique(n: int, size: int, a: seq<Span>, b: seq<Span>)
    requires Tiles(n, size, a) && Tiles(n, size, b)
    ensures a == b
  {
    if a != [] {
      var p, q := |a| - 1, |b| - 1;
      TileAt(n, size, a, p);
      TileAt(n, size, b, q);
      SameCount(n, size, p, q);
      forall k | 0 <= k < |a| ensures a[k] == b[k] {
        TileAt(n, size, a, k);
        TileAt(n, size, b, k);
      }
    }
  }

  lemma LaterTile(p: int, q: int, size: int)
    requires p < q && size > 0
    ensures p * size + size <= q * size
  {
    assert (q - p - 1) * size >= 0;
    assert q * size == p * size + size + (q - p - 1) * size;
  }

  lemma SameCount(n: int, size: int, p: nat, q: nat)
    requires 0 < n - p * size <= size && 0 < n - q * size <= size
    ensures p == q
  {
    if p < q {
      LaterTile(p, q, size);
    } else if q < p {
      LaterTile(q, p, size);
    }
  }

  /** None stands for the error Python raises for a step of zero; a negative step yields nothing. */
  method FixedChunks(n: nat, size: int) returns (chunks: Option<seq<Span>>)
    ensures chunks.None? <==> size == 0
    ensures size < 0 ==> chunks == Some([])
    ensures size > 0 ==> Tiles(n, size, chunks.value)
  {
    if size == 0 {
      return None;
    }
    var found := [];
    var i := 0;
    while size > 0 && i < n
      invariant i >= 0 && (size < 0 ==> found == [])
      invariant size > 0 ==> Tiles(Min(i, n), size, found)
      invariant size > 0 && found != [] && i < n ==> Length(found[|found| - 1]) == size
      decreases n - i
    {
      found := found + [Span(i, Min(i + size, n))];
      i := i + size;
    }
    chunks := Some(found);
  }

  // ------------------------------------------------------------------ languages

  function Label(detect: string -> Option<string>, available: bool, piece: string): string {
    if !available || |Strip(piece)| < 5 then "en"
    else
      var lang := detect(Strip(piece));
      if lang == Some("hu") || lang == Some("es") then lang.value else "en"
  }

  /** A piece is Hungarian or Spanish exactly if the detector says so of at least five characters. */
  lemma LabelIsSupported(detect: string -> Option<string>, available: bool, piece: string, lang: string)
    ensures Label(detect, available, piece) == lang && lang != "en"
        <==> && available && |Strip(piece)| >= 5 && detect(Strip(piece)) == Some(lang)
             && (lang == "hu" || lang == "es")
  {
    assert "hu"[0] != "en"[0] && "es"[1] != "en"[1];
  }

  ghost predicate LabelledAs(text: string, detect: string -> Option<string>, available: bool, spans: seq<Span>,
                             result: seq<Labelled>)
    requires Within(spans, |text|) && forall i :: 0 <= i < |spans| ==> spans[i].start <= spans[i].end
  {
    && |result| == |spans|
    && (forall i :: 0 <= i < |spans| ==>
          result[i] == Labelled(spans[i], Label(detect, available, text[spans[i].start..spans[i].end])))
  }

  method LabelSpans(text: string, detect: string -> Option<string>, available: bool, spans: seq<Span>)
    returns (result: seq<Labelled>)
    requires Within(spans, |text|) && forall i :: 0 <= i < |spans| ==> spans[i].start <= spans[i].end
    ensures LabelledAs(text, detect, available, spans, result)
  {
    result := [];
    for i := 0 to |spans|
      invariant |result| == i
      invariant forall k :: 0 <= k < i ==>
                  result[k] == Labelled(spans[k], Label(detect, available, text[spans[k].start..spans[k].end]))
    {
      var s := spans[i];
      result := result + [Labelled(s, Label(detect, available, text[s.start..s.end]))];
    }
  }

  lemma TilesInPlace(n: int, size: int, chunks: seq<Span>)
    requires Tiles(n, size, chunks) && size > 0 && n >= 0
    ensures Within(chunks, n) && Ordered(chunks)
  {
    forall i, j | 0 <= i < j < |chunks| ensures chunks[i].end <= chunks[j].start {
      TileAt(n, size, chunks, i);
      TileAt(n, size, chunks, j);
      TileEnds(i, j, size);
    }
    forall k | 0 <= k < |chunks| ensures 0 <= chunks[k].start && chunks[k].end <= n {
      TileAt(n, size, chunks, k);
      TileEnds(-1, k, size);
      assert k < |chunks| - 1 ==> chunks[k].end <= chunks[|chunks| - 1].start;
    }
  }

  lemma TileEnds(i: int, j: int, size: int)
    requires i < j && size > 0
    ensures (i + 1) * size <= j * size
  {
    LaterTile(i, j, size);
    assert (i + 1) * size == i * size + size;
  }

  lemma MergedInPlace(chunks: seq<Span>, merged: seq<Span>, n: int)
    requires MergedFrom(chunks, merged) && Ordered(chunks) && Within(chunks, n)
    ensures Ordered(merged) && Within(merged, n)
  {
    var cuts :| ShortestRuns(chunks, cuts) && HullsOf(chunks, cuts, merged);
    MergedSpansAreOrderedAndLong(chunks, cuts, merged);
    forall j | 0 <= j < |merged| ensures 0 <= merged[j].start && merged[j].end <= n {
      assert IsHull(chunks, cuts[j], cuts[j + 1], merged[j]);
    }
  }

  /** How each strategy chooses spans: merged sentence chunks, or tiles of a fixed size. */
  ghost predicate SpansOf(text: string, sentences: bool, maxChars: int, spans: seq<Span>) {
    && Within(spans, |text|) && Ordered(spans)
    && (sentences ==> exists chunks :: ChosenGaps(Separators(text, 0), |text|, chunks) && MergedFrom(chunks, spans))
    && (!sentences && maxChars > 0 ==> Tiles(|text|, maxChars, spans))
    && (!sentences && maxChars < 0 ==> spans == [])
  }

  method DetectLanguagePerChunk(text: string, sentences: bool, maxChars: int, detect: string -> Option<string>, available: bool)
    returns (result: Option<seq<Labelled>>)
    ensures result.None? <==> Strip(text) != "" && !sentences && maxChars == 0
    ensures Strip(text) == "" ==> result == Some([Labelled(Span(0, |text|), "en")])
    ensures Strip(text) != "" && result.Some? ==>
              exists spans :: SpansOf(text, sentences, maxChars, spans) && LabelledAs(text, detect, available, spans, result.value)
  {
    if Strip(text) == "" {
      return Some([Labelled(Span(0, |text|), "en")]);
    }
    var spans: seq<Span>;
    if sentences {
      var chunks := SentenceChunks(text);
      spans := MergeShort(chunks);
      MergedInPlace(chunks, spans, |text|);
    } else {
      var tiles := FixedChunks(|text|, maxChars);
      if tiles.None? {
        return None;
      }
      spans := tiles.value;
      if maxChars > 0 {
        TilesInPlace(|text|, maxChars, spans);
      }
    }
    var labelled := LabelSpans(text, detect, available, spans);
    assert SpansOf(text, sentences, maxChars, spans);
    result := Some(labelled);
  }
}
