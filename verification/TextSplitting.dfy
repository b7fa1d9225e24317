/** Where texts are split, told from the texts alone (backend/shared/text/chunking.py,
    backend/shared/text/language_detection.py).
 */
module TextSplitting {
  import opened Basics
  import opened TextChunking
  import opened SentenceSpans

  // ------------------------------------------------------------------ words

  lemma {:induction false} WordsAcross(a: string, word: string, c: char, b: string)
    requires IsSpace(c)
    ensures Words(a + [c] + b, word) == Words(a, word) + Words(b, "")
    decreases |a|
  {
    var all := a + [c] + b;
    if a == "" {
      assert all[0] == c && all[1..] == b;
    } else {
      assert all[0] == a[0] && all[1..] == a[1..] + [c] + b;
      if IsSpace(a[0]) {
        WordsAcross(a[1..], "", c, b);
      } else {
        WordsAcross(a[1..], word + [a[0]], c, b);
      }
    }
  }

  lemma {:induction false} SolidIsOneWord(w: string, word: string)
    requires Solid(word + w)
    ensures Words(w, word) == [word + w]
    decreases |w|
  {
    if w == "" {
      assert word + w == word;
    } else {
      assert (word + w)[|word|] == w[0];
      assert word + [w[0]] + w[1..] == word + w;
      SolidIsOneWord(w[1..], word + [w[0]]);
    }
  }

  /** Splitting into words is determined by three facts: nothing has no words, a text without white space is one word, and
      white space anywhere separates the words before it from the words after it. */
  lemma WordsStayApart(a: string, c: char, b: string)
    requires IsSpace(c)
    ensures Words("", "") == []
    ensures Solid(a) ==> Words(a, "") == [a]
    ensures Words(a + [c] + b, "") == Words(a, "") + Words(b, "")
  {
    WordsAcross(a, "", c, b);
    if Solid(a) {
      assert "" + a == a;
      SolidIsOneWord(a, "");
    }
  }

  // ------------------------------------------------------------------ sentences

  /** A sentence end is followed by white space somewhere. */
  predicate HasBreak(text: string) { exists i :: 0 < i < |text| && EndsSentence(text[i - 1]) && IsSpace(text[i]) }

  lemma {:induction false} SentencesAcross(a: string, sentence: string, c: char, b: string)
    requires IsSpace(c) && sentence + a != "" && EndsSentence((sentence + a)[|sentence + a| - 1])
    ensures Sentences(a + [c] + b, sentence) == Sentences(a, sentence) + Sentences(b, "")
    decreases |a|
  {
    var all := a + [c] + b;
    if a == "" {
      assert all[0] == c && all[1..] == b && sentence + a == sentence;
    } else {
      assert all[0] == a[0] && all[1..] == a[1..] + [c] + b;
      if SplitsHere(a, sentence) {
        assert (sentence + a)[|sentence + a| - 1] == a[|a| - 1];
        assert |a| > 1;
        assert "" + a[1..] == a[1..];
        SentencesAcross(a[1..], "", c, b);
      } else {
        assert sentence + [a[0]] + a[1..] == sentence + a;
        SentencesAcross(a[1..], sentence + [a[0]], c, b);
      }
    }
  }

  lemma {:induction false} UnbrokenIsOneSentence(text: string, sentence: string)
    requires !HasBreak(sentence + text)
    ensures Sentences(text, sentence) == [sentence + text]
    decreases |text|
  {
    if text == "" {
      assert sentence + text == sentence;
    } else {
      var all := sentence + text;
      assert all[|sentence|] == text[0] && (sentence != "" ==> all[|sentence| - 1] == sentence[|sentence| - 1]);
      assert !SplitsHere(text, sentence);
      assert sentence + [text[0]] + text[1..] == all;
      UnbrokenIsOneSentence(text[1..], sentence + [text[0]]);
    }
  }

  /** Splitting into sentences is determined by two facts: a text with no white space after a sentence end is one sentence,
      and the space after a sentence end separates the sentences before it from the sentences after it. */
  lemma SentencesStayApart(a: string, c: char, b: string)
    requires IsSpace(c)
    ensures !HasBreak(a) ==> Sentences(a, "") == [a]
    ensures a != "" && EndsSentence(a[|a| - 1]) ==> Sentences(a + [c] + b, "") == Sentences(a, "") + Sentences(b, "")
  {
    assert "" + a == a;
    if !HasBreak(a) {
      UnbrokenIsOneSentence(a, "");
    }
    if a != "" && EndsSentence(a[|a| - 1]) {
      SentencesAcross(a, "", c, b);
    }
  }

  // ------------------------------------------------------------------ stripping

  predicate Blank(s: string) { forall i :: 0 <= i < |s| ==> IsSpace(s[i]) }

  predicate Stripped(s: string) { s == "" || (!IsSpace(s[0]) && !IsSpace(s[|s| - 1])) }

  lemma {:induction false} LeftStripIs(s: string) returns (i: nat)
    ensures i <= |s| && Blank(s[..i]) && LeftStrip(s) == s[i..] && (i < |s| ==> !IsSpace(s[i]))
  {
    if s != "" && IsSpace(s[0]) {
      var k := LeftStripIs(s[1..]);
      i := k + 1;
      assert s[1..][k..] == s[i..] && s[..i] == [s[0]] + s[1..][..k];
    } else {
      i := 0;
      assert s[0..] == s;
    }
  }

  lemma {:induction false} RightStripIs(s: string) returns (i: nat)
    ensures i <= |s| && Blank(s[i..]) && RightStrip(s) == s[..i] && (i > 0 ==> !IsSpace(s[i - 1]))
  {
    if s != "" && IsSpace(s[|s| - 1]) {
      var n := |s| - 1;
      i := RightStripIs(s[..n]);
      assert s[..n][..i] == s[..i] && s[i..] == s[..n][i..] + [s[n]];
    } else {
      i := |s|;
      assert s[..i] == s && s[i..] == "";
    }
  }

  /** Stripping takes off white space at both ends and nothing else. */
  lemma StripIs(s: string) returns (left: string, right: string)
    ensures s == left + Strip(s) + right && Blank(left) && Blank(right) && Stripped(Strip(s))
  {
    var i := LeftStripIs(s);
    var rest := LeftStrip(s);
    var j := RightStripIs(rest);
    left, right := s[..i], rest[j..];
    assert s == s[..i] + s[i..] && rest == rest[..j] + rest[j..];
  }

  // ------------------------------------------------------------------ separators

  /** White space reaches from right after a sentence end to place p. */
  ghost predicate AfterEnd(text: string, q: int, p: int) {
    0 < q <= p < |text| && EndsSentence(text[q - 1]) && forall k :: q <= k <= p ==> IsSpace(text[k])
  }

  /** A line break, or white space that begins after a sentence end. */
  ghost predicate Separates(text: string, p: int) {
    0 <= p < |text| && (text[p] == '\n' || exists q :: AfterEnd(text, q, p))
  }

  ghost predicate Listed(separators: seq<Span>, p: int) { exists i :: 0 <= i < |separators| && Inside(separators[i], p) }

  /** The scan never stands inside white space that began after a sentence end. */
  ghost predicate ScanPoint(text: string, p: int) {
    0 <= p <= |text| && forall q :: q < p ==> !AfterEnd(text, q, p)
  }

  lemma {:induction false} SpacesRun(text: string, p: nat)
    requires p <= |text|
    ensures forall k :: p <= k < SpacesEnd(text, p) ==> IsSpace(text[k])
    ensures SpacesEnd(text, p) < |text| ==> !IsSpace(text[SpacesEnd(text, p)])
    decreases |text| - p
  {
    if p < |text| && IsSpace(text[p]) {
      SpacesRun(text, p + 1);
    }
  }

  lemma {:induction false} BreaksRun(text: string, p: nat)
    requires p <= |text|
    ensures forall k :: p <= k < BreaksEnd(text, p) ==> text[k] == '\n'
    ensures BreaksEnd(text, p) < |text| ==> text[BreaksEnd(text, p)] != '\n'
    decreases |text| - p
  {
    if p < |text| && text[p] == '\n' {
      BreaksRun(text, p + 1);
    }
  }

  lemma AfterSpaces(text: string, p: nat)
    requires p < |text| && p > 0 && EndsSentence(text[p - 1]) && IsSpace(text[p])
    ensures ScanPoint(text, SpacesEnd(text, p)) && !Separates(text, SpacesEnd(text, p))
    ensures forall k :: p <= k < SpacesEnd(text, p) ==> Separates(text, k)
  {
    SpacesRun(text, p);
    forall k | p <= k < SpacesEnd(text, p) ensures Separates(text, k) {
      assert AfterEnd(text, p, k);
    }
  }

  lemma AfterBreaks(text: string, p: nat)
    requires p < |text| && ScanPoint(text, p) && text[p] == '\n' && !(p > 0 && EndsSentence(text[p - 1]))
    ensures ScanPoint(text, BreaksEnd(text, p)) && !Separates(text, BreaksEnd(text, p))
    ensures forall k :: p <= k < BreaksEnd(text, p) ==> Separates(text, k)
  {
    BreaksRun(text, p);
    var b := BreaksEnd(text, p);
    forall q | q <= b ensures !AfterEnd(text, q, b) {
      if q < p {
        assert !AfterEnd(text, q, p);
      } else if q > p {
        assert text[q - 1] == '\n';
      }
    }
  }

  lemma AfterOther(text: string, p: nat)
    requires p < |text| && ScanPoint(text, p) && text[p] != '\n'
    requires !(p > 0 && EndsSentence(text[p - 1]) && IsSpace(text[p]))
    ensures ScanPoint(text, p + 1) && !Separates(text, p)
  {
    var next := p + 1;
    forall q ensures !AfterEnd(text, q, p) {
      assert q < p ==> !AfterEnd(text, q, p);
    }
    forall q | q < next ensures !AfterEnd(text, q, next) {
      assert AfterEnd(text, q, next) ==> AfterEnd(text, q, p);
    }
  }

  lemma ListedAfterFirst(s: Span, rest: seq<Span>, p: int)
    ensures Listed([s] + rest, p) <==> Inside(s, p) || Listed(rest, p)
  {
    var all := [s] + rest;
    if Listed(rest, p) {
      var i :| 0 <= i < |rest| && Inside(rest[i], p);
      assert all[i + 1] == rest[i];
    }
    if Inside(s, p) {
      assert all[0] == s;
    }
  }

  /** No two separators touch. */
  ghost predicate Apart(separators: seq<Span>) {
    forall i :: 0 < i < |separators| ==> separators[i - 1].end < separators[i].start
  }

  lemma {:induction false} ListedIffSeparates(text: string, from: nat, p: int)
    requires from <= p < |text| && ScanPoint(text, from)
    ensures Listed(Separators(text, from), p) <==> Separates(text, p)
    decreases |text| - from
  {
    SeparatorsAreOrdered(text, from);
    if from > 0 && EndsSentence(text[from - 1]) && IsSpace(text[from]) {
      var q := SpacesEnd(text, from);
      AfterSpaces(text, from);
      NextListed(text, Span(from, q), q, p);
    } else if text[from] == '\n' {
      var q := BreaksEnd(text, from);
      AfterBreaks(text, from);
      NextListed(text, Span(from, q), q, p);
    } else {
      AfterOther(text, from);
      if from < p {
        ListedIffSeparates(text, from + 1, p);
      } else {
        SeparatorsAreOrdered(text, from + 1);
      }
    }
  }

  lemma {:induction false} NextListed(text: string, s: Span, q: nat, p: int)
    requires s.end == q && 0 <= s.start < q <= |text| && s.start <= p < |text| && ScanPoint(text, q)
    requires forall k :: s.start <= k < q ==> Separates(text, k)
    ensures Listed([s] + Separators(text, q), p) <==> Separates(text, p)
    decreases |text| - s.start, 0
  {
    ListedAfterFirst(s, Separators(text, q), p);
    if p < q {
      assert Inside(s, p);
    } else {
      ListedIffSeparates(text, q, p);
    }
  }

  lemma {:induction false} SeparatorsApart(text: string, from: nat)
    requires from <= |text| && ScanPoint(text, from)
    ensures Apart(Separators(text, from))
    decreases |text| - from
  {
    if from == |text| {
    } else if from > 0 && EndsSentence(text[from - 1]) && IsSpace(text[from]) {
      AfterSpaces(text, from);
      NextApart(text, from, SpacesEnd(text, from));
    } else if text[from] == '\n' {
      AfterBreaks(text, from);
      NextApart(text, from, BreaksEnd(text, from));
    } else {
      AfterOther(text, from);
      SeparatorsApart(text, from + 1);
    }
  }

  lemma {:induction false} NextApart(text: string, from: nat, q: nat)
    requires from < q <= |text| && ScanPoint(text, q) && !Separates(text, q)
    ensures Apart([Span(from, q)] + Separators(text, q))
    decreases |text| - from, 0
  {
    SeparatorsApart(text, q);
    SeparatorsAreOrdered(text, q);
    var rest := Separators(text, q);
    if rest != [] {
      if rest[0].start == q {
        assert Inside(rest[0], q);
        ListedIffSeparates(text, q, q);
      }
    }
  }

  /** The separators are exactly the stretches of places that separate: line breaks, and white space from a sentence end
      on; each is as long as it can be. */
  lemma SeparatorsAreExact(text: string)
    ensures forall p :: 0 <= p < |text| ==> (Listed(Separators(text, 0), p) <==> Separates(text, p))
    ensures Apart(Separators(text, 0)) && Between(Separators(text, 0), 0, |text|)
  {
    forall p | 0 <= p < |text| ensures Listed(Separators(text, 0), p) <==> Separates(text, p) {
      ListedIffSeparates(text, 0, p);
    }
    SeparatorsApart(text, 0);
    SeparatorsAreOrdered(text, 0);
  }

  ghost predicate SamePlaces(a: seq<Span>, b: seq<Span>) { forall p :: Listed(a, p) <==> Listed(b, p) }

  ghost predicate Stretches(a: seq<Span>) { Ordered(a) && Apart(a) }

  lemma ListedInRest(a: seq<Span>, p: int)
    requires Stretches(a) && a != []
    ensures Stretches(a[1..])
    ensures Listed(a[1..], p) <==> Listed(a, p) && p >= a[0].end
  {
    assert a == [a[0]] + a[1..];
    ListedAfterFirst(a[0], a[1..], p);
  }

  lemma EndIsNotListed(b: seq<Span>)
    requires Stretches(b) && b != []
    ensures !Listed(b, b[0].end)
  {
    forall j | 0 <= j < |b| ensures !Inside(b[j], b[0].end) {
      assert j > 0 ==> b[0].end < b[1].start;
      assert j > 1 ==> b[1].end <= b[j].start;
    }
  }

  lemma StartIsListed(a: seq<Span>)
    requires Stretches(a) && a != []
    ensures Listed(a, a[0].start)
  {
    assert Inside(a[0], a[0].start);
  }

  lemma FirstIsListed(a: seq<Span>, p: int)
    requires a != []
    ensures Inside(a[0], p) ==> Listed(a, p)
  {
  }

  lemma ListedFrom(b: seq<Span>, p: int)
    requires Stretches(b) && Listed(b, p)
    ensures b != [] && b[0].start <= p
  {
    var i :| 0 <= i < |b| && Inside(b[i], p);
    assert i > 0 ==> b[0].start < b[0].end <= b[i].start;
  }

  /** The first stretch of the one begins no later and ends no sooner than that of the other. */
  lemma SameFirst(a: seq<Span>, b: seq<Span>)
    requires Stretches(a) && Stretches(b) && SamePlaces(a, b) && a != []
    ensures b != [] && b[0].start <= a[0].start && (b[0].start == a[0].start ==> a[0].end <= b[0].end)
  {
    StartIsListed(a);
    assert Listed(b, a[0].start);
    ListedFrom(b, a[0].start);
    EndIsNotListed(b);
    assert !Listed(a, b[0].end);
    FirstIsListed(a, b[0].end);
  }

  lemma SameRest(a: seq<Span>, b: seq<Span>)
    requires Stretches(a) && Stretches(b) && SamePlaces(a, b) && a != [] && b != [] && a[0].end == b[0].end
    ensures Stretches(a[1..]) && Stretches(b[1..]) && SamePlaces(a[1..], b[1..])
  {
    forall p ensures Listed(a[1..], p) <==> Listed(b[1..], p) {
      ListedInRest(a, p);
      ListedInRest(b, p);
      assert Listed(a, p) <==> Listed(b, p);
    }
    ListedInRest(a, 0);
    ListedInRest(b, 0);
  }

  lemma NoneIfNone(a: seq<Span>, b: seq<Span>)
    requires Stretches(a) && Stretches(b) && SamePlaces(a, b)
    ensures a != [] ==> b != []
  {
    if a != [] {
      SameFirst(a, b);
    }
  }

  /** Stretches that do not touch are determined by the places in them, so there are no other such separators. */
  lemma {:induction false} StretchesAreUnique(a: seq<Span>, b: seq<Span>)
    requires Stretches(a) && Stretches(b) && SamePlaces(a, b)
    ensures a == b
    decreases |a|
  {
    NoneIfNone(a, b);
    NoneIfNone(b, a);
    if a != [] {
      SameFirst(a, b);
      SameFirst(b, a);
      SameRest(a, b);
      StretchesAreUnique(a[1..], b[1..]);
      assert a == [a[0]] + a[1..] && b == [b[0]] + b[1..];
    }
  }

  // ------------------------------------------------------------------ pieces

  lemma GapsInOrder(s: seq<Span>, n: int, i: nat, k: nat)
    requires Between(s, 0, n) && i <= |s| && k <= |s|
    ensures i < k ==> Gap(s, n, i).end < Gap(s, n, k).start
  {
    if i < k {
      assert s[i].start < s[i].end;
      if i < k - 1 {
        assert s[i].end <= s[k - 1].start;
      }
    }
  }

  lemma GapIsChunkIff(s: seq<Span>, n: int, chunks: seq<Span>, i: nat)
    requires Between(s, 0, n) && ChosenGaps(s, n, chunks) && i <= |s|
    ensures Gap(s, n, i) in chunks <==> Chosen(s, n, i)
  {
    if Gap(s, n, i) in chunks {
      var k :| 0 <= k <= |s| && Chosen(s, n, k) && Gap(s, n, i) == Gap(s, n, k);
      GapsInOrder(s, n, i, k);
      GapsInOrder(s, n, k, i);
      assert i == k;
    }
  }

  /** A piece between separators is a chunk exactly if it has ten characters or more; what follows the last separator is one
      unless it is empty. */
  lemma PieceIsChunkIff(text: string, s: seq<Span>, chunks: seq<Span>, i: nat)
    requires s == Separators(text, 0) && ChosenGaps(s, |text|, chunks) && i <= |s|
    ensures
      var from, to := if i == 0 then 0 else s[i - 1].end, if i < |s| then s[i].start else |text|;
      Span(from, to) in chunks <==> if i < |s| then to - from >= 10 else to > from
  {
    SeparatorsAreOrdered(text, 0);
    GapIsChunkIff(s, |text|, chunks, i);
  }
}
