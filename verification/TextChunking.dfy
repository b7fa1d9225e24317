/** Cutting a text into chunks for training (backend/shared/text/chunking.py).

    White space is collapsed first, which leaves no line break, so the split into paragraphs always yields
    the whole text as one paragraph.
 */
module TextChunking {
  import opened Basics

  predicate IsSpace(c: char) {
    || '\U{0009}' <= c <= '\U{000D}' || '\U{001C}' <= c <= '\U{0020}' || c == '\U{0085}' || c == '\U{00A0}'
    || c == '\U{1680}' || '\U{2000}' <= c <= '\U{200A}' || c == '\U{2028}' || c == '\U{2029}' || c == '\U{202F}'
    || c == '\U{205F}' || c == '\U{3000}'
  }

  predicate EndsSentence(c: char) { c == '.' || c == '!' || c == '?' }

  function Join(words: seq<string>): string {
    if words == [] then ""
    else if |words| == 1 then words[0]
    else Join(words[..|words| - 1]) + " " + words[|words| - 1]
  }

  function Kept(c: char): string { if IsSpace(c) then "" else [c] }

  function NonSpace(s: string): string { if s == "" then "" else Kept(s[0]) + NonSpace(s[1..]) }

  /** Words of a text; `word` is what has been read of the current one. */
  function Words(text: string, word: string): seq<string> {
    if text == "" then (if word == "" then [] else [word])
    else if IsSpace(text[0]) then (if word == "" then [] else [word]) + Words(text[1..], "")
    else Words(text[1..], word + [text[0]])
  }

  function Normalize(text: string): string { Join(Words(text, "")) }

  function LeftStrip(s: string): string { if s != "" && IsSpace(s[0]) then LeftStrip(s[1..]) else s }

  function RightStrip(s: string): string {
    if s != "" && IsSpace(s[|s| - 1]) then RightStrip(s[..|s| - 1]) else s
  }

  function Strip(s: string): string { RightStrip(LeftStrip(s)) }

  predicate SplitsHere(text: string, sentence: string)
    requires text != ""
  {
    IsSpace(text[0]) && sentence != "" && EndsSentence(sentence[|sentence| - 1])
  }

  /** Splits after sentence ends, at the one space that normalised text has there; `sentence` is what has been
      read of the current one. */
  function Sentences(text: string, sentence: string): seq<string> {
    if text == "" then [sentence]
    else if SplitsHere(text, sentence) then [sentence] + Sentences(text[1..], "")
    else Sentences(text[1..], sentence + [text[0]])
  }

  function Slices(s: string, size: nat): seq<string>
    requires size >= 1
  {
    if |s| <= size then [s] else [s[..size]] + Slices(s[size..], size)
  }

  // ------------------------------------------------------------------ the promise

  function Flatten(blocks: seq<seq<string>>): seq<string> {
    if blocks == [] then [] else Flatten(blocks[..|blocks| - 1]) + blocks[|blocks| - 1]
  }

  function Render(block: seq<string>, max: nat): seq<string>
    requires max >= 1
  {
    if |Join(block)| <= max then [Join(block)] else Slices(Join(block), max)
  }

  function Rendered(blocks: seq<seq<string>>, max: nat): seq<string>
    requires max >= 1
  {
    if blocks == [] then [] else Rendered(blocks[..|blocks| - 1], max) + Render(blocks[|blocks| - 1], max)
  }

  predicate Fits(block: seq<string>, max: nat) {
    block != [] && (|Join(block)| <= max || |block| == 1)
  }

  /** The sentences fall into consecutive blocks: each fits into a chunk or is one oversized sentence, and
      none could have taken in the next sentence. */
  ghost predicate GreedyBlocks(sentences: seq<string>, max: nat, blocks: seq<seq<string>>) {
    && Flatten(blocks) == sentences
    && (forall i :: 0 <= i < |blocks| ==> Fits(blocks[i], max))
    && (forall i :: 0 < i < |blocks| ==> |Join(blocks[i - 1])| + 1 + |blocks[i][0]| > max)
  }

  lemma {:induction false} JoinConcat(a: seq<string>, b: seq<string>)
    requires a != [] && b != []
    ensures Join(a + b) == Join(a) + " " + Join(b)
    decreases |b|
  {
    assert (a + b)[..|a + b| - 1] == a + b[..|b| - 1];
    if |b| > 1 {
      JoinConcat(a, b[..|b| - 1]);
      assert Join(a + b) == (Join(a) + " " + Join(b[..|b| - 1])) + " " + b[|b| - 1];
    } else {
      assert b[..0] == [] && a + [] == a;
    }
  }

  lemma {:induction false} FlattenFirst(blocks: seq<seq<string>>)
    requires blocks != []
    ensures Flatten(blocks) == blocks[0] + Flatten(blocks[1..])
  {
    var n := |blocks| - 1;
    if n > 0 {
      FlattenFirst(blocks[..n]);
      assert blocks[..n][1..] == blocks[1..][..n - 1];
    } else {
      assert blocks[..0] == [] && blocks[1..] == [];
    }
  }

  lemma TailIsGreedy(sentences: seq<string>, max: nat, blocks: seq<seq<string>>)
    requires GreedyBlocks(sentences, max, blocks) && blocks != []
    ensures sentences == blocks[0] + Flatten(blocks[1..])
    ensures GreedyBlocks(Flatten(blocks[1..]), max, blocks[1..])
    ensures |blocks| > 1 ==> Flatten(blocks[1..]) != [] && Flatten(blocks[1..])[0] == blocks[1][0]
  {
    FlattenFirst(blocks);
    var rest := blocks[1..];
    forall i | 0 < i < |rest| ensures |Join(rest[i - 1])| + 1 + |rest[i][0]| > max {
      assert rest[i - 1] == blocks[i] && rest[i] == blocks[i + 1];
    }
    if |blocks| > 1 {
      FlattenFirst(rest);
      assert Fits(blocks[1], max);
    }
  }

  lemma LongerRunOverflows(first: seq<string>, more: seq<string>, max: nat)
    requires first != [] && more != [] && |Join(first)| + 1 + |more[0]| > max
    ensures |Join(first + more)| > max
  {
    JoinConcat(first, more);
    FirstWithinJoin(more);
  }

  lemma LongerPrefixOverflows(sentences: seq<string>, max: nat, blocks: seq<seq<string>>, n: nat)
    requires GreedyBlocks(sentences, max, blocks) && blocks != [] && |blocks[0]| < n <= |sentences|
    ensures |Join(sentences[..n])| > max
  {
    TailIsGreedy(sentences, max, blocks);
    var k, rest := |blocks[0]|, Flatten(blocks[1..]);
    assert Fits(blocks[0], max);
    EmptyOnlyIfNoSentences(rest, max, blocks[1..]);
    var more := sentences[k..n];
    assert sentences[..n] == blocks[0] + more && more[0] == rest[0];
    LongerRunOverflows(blocks[0], more, max);
  }

  lemma FirstBlockIsLongest(sentences: seq<string>, max: nat, a: seq<seq<string>>, b: seq<seq<string>>)
    requires GreedyBlocks(sentences, max, a) && GreedyBlocks(sentences, max, b) && a != [] && b != []
    ensures |a[0]| >= |b[0]|
  {
    FlattenFirst(a);
    FlattenFirst(b);
    assert Fits(a[0], max) && Fits(b[0], max);
    assert b[0] == sentences[..|b[0]|];
    if |a[0]| < |b[0]| {
      LongerPrefixOverflows(sentences, max, a, |b[0]|);
    }
  }

  lemma {:induction false} FirstWithinJoin(words: seq<string>)
    requires words != []
    ensures |Join(words)| >= |words[0]|
  {
    if |words| > 1 {
      FirstWithinJoin(words[..|words| - 1]);
    }
  }

  /** The promise leaves no choice. */
  lemma {:induction false} GreedyBlocksAreUnique(sentences: seq<string>, max: nat, a: seq<seq<string>>, b: seq<seq<string>>)
    requires GreedyBlocks(sentences, max, a) && GreedyBlocks(sentences, max, b)
    ensures a == b
    decreases |a|
  {
    if a == [] || b == [] {
      EmptyOnlyIfNoSentences(sentences, max, a);
      EmptyOnlyIfNoSentences(sentences, max, b);
    } else {
      FirstBlockIsLongest(sentences, max, a, b);
      FirstBlockIsLongest(sentences, max, b, a);
      TailIsGreedy(sentences, max, a);
      TailIsGreedy(sentences, max, b);
      assert a[0] == sentences[..|a[0]|] == b[0];
      assert Flatten(a[1..]) == sentences[|a[0]|..] == Flatten(b[1..]);
      GreedyBlocksAreUnique(Flatten(a[1..]), max, a[1..], b[1..]);
      assert a == [a[0]] + a[1..] && b == [b[0]] + b[1..];
    }
  }

  lemma EmptyOnlyIfNoSentences(sentences: seq<string>, max: nat, blocks: seq<seq<string>>)
    requires GreedyBlocks(sentences, max, blocks)
    ensures blocks == [] <==> sentences == []
  {
    if blocks != [] {
      FlattenFirst(blocks);
      assert Fits(blocks[0], max);
    }
  }

  // ------------------------------------------------------------------ what the chunks contain

  lemma {:induction false} NonSpaceConcat(a: string, b: string)
    ensures NonSpace(a + b) == NonSpace(a) + NonSpace(b)
  {
    if a == "" {
      assert a + b == b;
    } else {
      NonSpaceConcat(a[1..], b);
      assert (a + b)[0] == a[0] && (a + b)[1..] == a[1..] + b;
      Associate(Kept(a[0]), NonSpace(a[1..]), NonSpace(b));
    }
  }

  lemma Associate<T>(a: seq<T>, b: seq<T>, c: seq<T>)
    ensures a + (b + c) == (a + b) + c
  {
  }

  function Concat(parts: seq<string>): string {
    if parts == [] then "" else Concat(parts[..|parts| - 1]) + parts[|parts| - 1]
  }

  lemma {:induction false} ConcatAppends(a: seq<string>, b: seq<string>)
    ensures Concat(a + b) == Concat(a) + Concat(b)
    decreases |b|
  {
    if b == [] {
      assert a + b == a;
    } else {
      var n := |b| - 1;
      ConcatAppends(a, b[..n]);
      assert (a + b)[..|a| + n] == a + b[..n] && (a + b)[|a| + n] == b[n];
      Associate(Concat(a), Concat(b[..n]), b[n]);
    }
  }

  lemma {:induction false} SlicesRebuild(s: string, size: nat)
    requires size >= 1
    ensures Concat(Slices(s, size)) == s
    ensures forall i :: 0 <= i < |Slices(s, size)| ==> |Slices(s, size)[i]| <= size
    ensures forall i :: 0 <= i < |Slices(s, size)| - 1 ==> |Slices(s, size)[i]| == size
    decreases |s|
  {
    if |s| > size {
      SlicesRebuild(s[size..], size);
      ConcatAppends([s[..size]], Slices(s[size..], size));
      ConcatOne(s[..size]);
      assert s == s[..size] + s[size..];
    } else {
      ConcatOne(s);
    }
  }

  lemma ConcatOne(s: string)
    ensures Concat([s]) == s
  {
    assert [s][..0] == [];
  }

  lemma {:induction false} RenderedSizes(blocks: seq<seq<string>>, max: nat)
    requires max >= 1
    ensures forall i :: 0 <= i < |Rendered(blocks, max)| ==> |Rendered(blocks, max)[i]| <= max
  {
    if blocks != [] {
      RenderedSizes(blocks[..|blocks| - 1], max);
      SlicesRebuild(Join(blocks[|blocks| - 1]), max);
    }
  }

  lemma {:induction false} NonSpaceOfJoin(words: seq<string>)
    ensures NonSpace(Join(words)) == NonSpace(Concat(words))
  {
    if words == [] {
    } else if |words| == 1 {
      assert words == [words[0]];
      ConcatOne(words[0]);
    } else {
      var n := |words| - 1;
      NonSpaceOfJoin(words[..n]);
      NonSpaceConcat(Join(words[..n]) + " ", words[n]);
      NonSpaceConcat(Join(words[..n]), " ");
      NonSpaceConcat(Concat(words[..n]), words[n]);
      assert NonSpace(" ") == "";
    }
  }

  /** The chunks hold the sentences' characters, white space aside, in order and once. */
  lemma {:induction false} RenderedContent(blocks: seq<seq<string>>, max: nat)
    requires max >= 1
    ensures NonSpace(Concat(Rendered(blocks, max))) == NonSpace(Concat(Flatten(blocks)))
  {
    if blocks != [] {
      var n := |blocks| - 1;
      RenderedContent(blocks[..n], max);
      var text := Join(blocks[n]);
      SlicesRebuild(text, max);
      ConcatOne(text);
      assert Concat(Render(blocks[n], max)) == text;
      NonSpaceOfJoin(blocks[n]);
      ConcatAppends(Rendered(blocks[..n], max), Render(blocks[n], max));
      ConcatAppends(Flatten(blocks[..n]), blocks[n]);
      NonSpaceConcat(Concat(Rendered(blocks[..n], max)), text);
      NonSpaceConcat(Concat(Flatten(blocks[..n])), Concat(blocks[n]));
    }
  }

  // ------------------------------------------------------------------ normal form

  /** No white space at either end, single spaces inside. */
  predicate Tidy(s: string) {
    && s != "" && !IsSpace(s[0]) && !IsSpace(s[|s| - 1])
    && (forall i :: 0 <= i < |s| && IsSpace(s[i]) ==> s[i] == ' ')
    && (forall i :: 0 < i < |s| && IsSpace(s[i]) ==> !IsSpace(s[i - 1]))
  }

  predicate Solid(w: string) { w != "" && forall i :: 0 <= i < |w| ==> !IsSpace(w[i]) }

  lemma {:induction false} WordsAreSolid(text: string, word: string)
    requires word == "" || Solid(word)
    ensures forall w :: w in Words(text, word) ==> Solid(w)
    ensures NonSpace(Concat(Words(text, word))) == NonSpace(word) + NonSpace(text)
    decreases |text|
  {
    if text == "" {
      ConcatOne(word);
      assert NonSpace(word) + "" == NonSpace(word);
    } else if IsSpace(text[0]) {
      WordsAreSolid(text[1..], "");
      assert NonSpace(text) == "" + NonSpace(text[1..]) == NonSpace(text[1..]);
      WordFirst(word, Words(text[1..], ""));
    } else {
      WordsAreSolid(text[1..], word + [text[0]]);
      NonSpaceConcat(word, [text[0]]);
      NonSpaceOne(text[0]);
      Associate(NonSpace(word), Kept(text[0]), NonSpace(text[1..]));
    }
  }

  lemma NonSpaceOne(c: char)
    ensures NonSpace([c]) == Kept(c)
  {
    assert [c][1..] == "";
    assert Kept(c) + "" == Kept(c);
  }

  lemma WordFirst(word: string, rest: seq<string>)
    ensures word == "" ==> [] + rest == rest && NonSpace(word) + NonSpace(Concat(rest)) == NonSpace(Concat(rest))
    ensures NonSpace(Concat([word] + rest)) == NonSpace(word) + NonSpace(Concat(rest))
  {
    ConcatAppends([word], rest);
    ConcatOne(word);
    NonSpaceConcat(word, Concat(rest));
  }

  lemma {:induction false} JoinIsTidy(words: seq<string>)
    requires words != [] && forall w :: w in words ==> Solid(w)
    ensures Tidy(Join(words))
  {
    var n := |words| - 1;
    assert Solid(words[n]);
    if n > 0 {
      assert forall w :: w in words[..n] ==> w in words;
      JoinIsTidy(words[..n]);
      var a, b := Join(words[..n]), words[n];
      assert Join(words) == a + " " + b;
      TidyJoin(a, b);
    }
  }

  lemma TidyJoin(a: string, b: string)
    requires Tidy(a) && Tidy(b)
    ensures Tidy(a + " " + b)
  {
    var s := a + " " + b;
    forall i | 0 < i < |s| && IsSpace(s[i]) ensures !IsSpace(s[i - 1]) {
      if i > |a| + 1 {
        assert s[i] == b[i - |a| - 1] && s[i - 1] == b[i - |a| - 2];
      }
    }
  }

  /** Normalising keeps the characters and leaves no line break, so there is one paragraph. */
  lemma NormalizedIsTidy(text: string)
    ensures Normalize(text) == "" || Tidy(Normalize(text))
    ensures NonSpace(Normalize(text)) == NonSpace(text)
    ensures '\n' !in Normalize(text)
  {
    WordsAreSolid(text, "");
    NonSpaceOfJoin(Words(text, ""));
    if Words(text, "") != [] {
      JoinIsTidy(Words(text, ""));
    }
    assert NonSpace("") + NonSpace(text) == NonSpace(text);
  }

  lemma StripTidy(s: string)
    requires s == "" || (!IsSpace(s[0]) && !IsSpace(s[|s| - 1]))
    ensures Strip(s) == s
  {
  }

  lemma SplitIsTidy(sentence: string, text: string)
    requires Tidy(sentence + text) && sentence != "" && text != "" && IsSpace(text[0])
    ensures |text| > 1 && text == " " + text[1..] && Tidy(sentence) && Tidy(text[1..])
  {
    var all, k := sentence + text, |sentence|;
    assert all[k] == text[0] && all[|all| - 1] == text[|text| - 1];
    TidyHalves(all, k);
    assert all[..k] == sentence && all[k + 1..] == text[1..];
  }

  ghost predicate AllTidy(sentences: seq<string>) { forall i :: 0 <= i < |sentences| ==> Tidy(sentences[i]) }

  lemma FirstTidy(sentence: string, rest: seq<string>)
    requires Tidy(sentence) && AllTidy(rest)
    ensures AllTidy([sentence] + rest)
  {
  }

  lemma {:induction false} SentencesRebuild(text: string, sentence: string)
    requires Tidy(sentence + text)
    ensures Join(Sentences(text, sentence)) == sentence + text
    ensures AllTidy(Sentences(text, sentence))
    decreases |text|
  {
    if text == "" {
      LastSentence(sentence);
    } else if SplitsHere(text, sentence) {
      SplitIsTidy(sentence, text);
      var rest := text[1..];
      assert "" + rest == rest;
      SentencesRebuild(rest, "");
      SentencesAfterSplit(text, sentence);
      FirstTidy(sentence, Sentences(rest, ""));
    } else {
      var longer := sentence + [text[0]];
      assert longer + text[1..] == sentence + text;
      SentencesRebuild(text[1..], longer);
    }
  }

  lemma LastSentence(sentence: string)
    requires Tidy(sentence + "")
    ensures Join(Sentences("", sentence)) == sentence + "" && AllTidy(Sentences("", sentence))
  {
    assert sentence + "" == sentence;
  }

  lemma SentencesAfterSplit(text: string, sentence: string)
    requires text != "" && SplitsHere(text, sentence) && text == " " + text[1..]
    requires Join(Sentences(text[1..], "")) == text[1..]
    ensures Join(Sentences(text, sentence)) == sentence + text
    ensures Sentences(text, sentence) == [sentence] + Sentences(text[1..], "")
  {
    SomeSentence(text[1..], "");
    JoinAfter(sentence, Sentences(text[1..], ""));
    assert sentence + " " + text[1..] == sentence + text;
  }

  lemma JoinAfter(sentence: string, rest: seq<string>)
    requires rest != []
    ensures Join([sentence] + rest) == sentence + " " + Join(rest)
  {
    JoinConcat([sentence], rest);
  }

  lemma {:induction false} SomeSentence(text: string, sentence: string)
    ensures Sentences(text, sentence) != []
    decreases |text|
  {
    if text != "" && !SplitsHere(text, sentence) {
      SomeSentence(text[1..], sentence + [text[0]]);
    }
  }

  lemma TidyHalves(s: string, k: nat)
    requires Tidy(s) && 0 < k < |s| - 1 && s[k] == ' '
    ensures Tidy(s[..k]) && Tidy(s[k + 1..])
  {
    var b := s[k + 1..];
    assert !IsSpace(s[k - 1]) && IsSpace(s[k]);
    assert !IsSpace(s[k + 1]);
    forall i | 0 < i < |b| && IsSpace(b[i]) ensures !IsSpace(b[i - 1]) {
      assert b[i] == s[i + k + 1] && b[i - 1] == s[i + k];
    }
  }

  // ------------------------------------------------------------------ the code

  function LongEnough(parts: seq<string>): seq<string> {
    if parts == [] then []
    else
      var last := parts[|parts| - 1];
      LongEnough(parts[..|parts| - 1]) + if |Strip(last)| > 20 then [last] else []
  }

  lemma SliceFrom(s: string, i: nat, size: nat)
    requires size >= 1 && i < |s|
    ensures Slices(s[i..], size)
         == [s[i..Min(i + size, |s|)]] + if i + size < |s| then Slices(s[i + size..], size) else []
  {
    if i + size < |s| {
      assert s[i..][..size] == s[i..i + size] && s[i..][size..] == s[i + size..];
    } else {
      assert s[i..] == s[i..|s|] && [s[i..]] + [] == [s[i..]];
    }
  }

  method SliceSentence(sentence: string, size: nat) returns (pieces: seq<string>)
    requires 1 <= size < |sentence|
    ensures pieces == Slices(sentence, size)
  {
    pieces := [];
    var i := 0;
    assert sentence[0..] == sentence;
    while i < |sentence|
      invariant 0 <= i
      invariant Slices(sentence, size) == pieces + if i < |sentence| then Slices(sentence[i..], size) else []
      decreases |sentence| - i
    {
      SliceFrom(sentence, i, size);
      pieces := pieces + [sentence[i..Min(i + size, |sentence|)]];
      i := i + size;
    }
  }

  lemma CloseBlock(closed: seq<seq<string>>, open: seq<string>, max: nat)
    requires max >= 1
    ensures Flatten(closed + [open]) == Flatten(closed) + open
    ensures Rendered(closed + [open], max) == Rendered(closed, max) + Render(open, max)
  {
    assert (closed + [open])[..|closed|] == closed;
  }

  function Done(closed: seq<seq<string>>, open: seq<string>): seq<seq<string>> {
    if open == [] then closed else closed + [open]
  }

  /** Where the scan stands: closed blocks, and an open one that is still in the buffer. */
  ghost predicate Scanning(sentences: seq<string>, max: nat, closed: seq<seq<string>>, open: seq<string>) {
    && GreedyBlocks(sentences, max, Done(closed, open))
    && (open != [] ==> |Join(open)| <= max)
    && (open == [] && closed != [] ==> |Join(closed[|closed| - 1])| > max)
  }

  lemma GreedyAppend(sentences: seq<string>, max: nat, blocks: seq<seq<string>>, block: seq<string>)
    requires GreedyBlocks(sentences, max, blocks) && Fits(block, max)
    requires blocks != [] ==> |Join(blocks[|blocks| - 1])| + 1 + |block[0]| > max
    ensures GreedyBlocks(sentences + block, max, blocks + [block])
  {
    assert (blocks + [block])[..|blocks|] == blocks;
  }

  lemma GreedyInit(sentences: seq<string>, max: nat, init: seq<seq<string>>, last: seq<string>)
    requires GreedyBlocks(sentences, max, init + [last])
    ensures GreedyBlocks(Flatten(init), max, init) && sentences == Flatten(init) + last && Fits(last, max)
    ensures init != [] ==> |Join(init[|init| - 1])| + 1 + |last[0]| > max
  {
    var blocks := init + [last];
    assert blocks[..|init|] == init && blocks[|init|] == last;
    assert Fits(blocks[|init|], max);
    assert forall i :: 0 <= i < |init| ==> init[i] == blocks[i];
  }

  /** The next sentence does not fit: the open block is closed and the sentence starts one of its own. */
  lemma OpenBlock(sentences: seq<string>, max: nat, closed: seq<seq<string>>, open: seq<string>, sentence: string)
    requires Scanning(sentences, max, closed, open)
    requires open != [] ==> |Join(open)| + |sentence| + 1 > max
    ensures GreedyBlocks(sentences + [sentence], max, Done(closed, open) + [[sentence]])
  {
    GreedyAppend(sentences, max, Done(closed, open), [sentence]);
  }

  lemma GrowBlock(sentences: seq<string>, max: nat, closed: seq<seq<string>>, open: seq<string>, sentence: string)
    requires GreedyBlocks(sentences, max, closed + [open]) && open != []
    requires |Join(open + [sentence])| <= max
    ensures GreedyBlocks(sentences + [sentence], max, closed + [open + [sentence]])
  {
    GreedyInit(sentences, max, closed, open);
    var longer := open + [sentence];
    assert longer[0] == open[0];
    GreedyAppend(Flatten(closed), max, closed, longer);
    Associate(Flatten(closed), open, [sentence]);
  }

  lemma ExtendBlock(sentences: seq<string>, max: nat, closed: seq<seq<string>>, open: seq<string>, sentence: string)
    requires Scanning(sentences, max, closed, open) && open != []
    requires |Join(open)| + |sentence| + 1 <= max
    ensures Scanning(sentences + [sentence], max, closed, open + [sentence])
    ensures Join(open + [sentence]) == Join(open) + " " + sentence
  {
    JoinConcat(open, [sentence]);
    GrowBlock(sentences, max, closed, open, sentence);
  }

  lemma FlushOpen(sentences: seq<string>, max: nat, closed: seq<seq<string>>, open: seq<string>)
    requires max >= 1 && Scanning(sentences, max, closed, open)
    ensures Rendered(Done(closed, open), max) == Rendered(closed, max) + (if open == [] then [] else [Join(open)])
  {
    CloseBlock(closed, open, max);
    assert Rendered(closed, max) + [] == Rendered(closed, max);
  }

  lemma FlushAndStart(sentences: seq<string>, max: nat, closed: seq<seq<string>>, open: seq<string>, sentence: string)
    requires max >= 1 && Scanning(sentences, max, closed, open)
    requires open != [] ==> |Join(open)| + |sentence| + 1 > max
    ensures
      var done := Done(closed, open);
      && Rendered(done + [[sentence]], max)
         == Rendered(done, max) + (if |sentence| <= max then [sentence] else Slices(sentence, max))
      && (if |sentence| <= max then Scanning(sentences + [sentence], max, done, [sentence])
          else Scanning(sentences + [sentence], max, done + [[sentence]], []))
  {
    OpenBlock(sentences, max, closed, open, sentence);
    CloseBlock(Done(closed, open), [sentence], max);
  }

  /** The scan's variables stand for the blocks so far. */
  ghost predicate Progress(sentences: seq<string>, max: nat, closed: seq<seq<string>>, open: seq<string>,
                           parts: seq<string>, buf: string)
    requires max >= 1
  {
    && Scanning(sentences, max, closed, open) && parts == Rendered(closed, max) && buf == Join(open)
    && (if open == [] then buf == "" else Tidy(buf))
  }

  lemma ProgressByExtending(sentences: seq<string>, max: nat, closed: seq<seq<string>>, open: seq<string>,
                            parts: seq<string>, buf: string, sentence: string)
    requires max >= 1 && Progress(sentences, max, closed, open, parts, buf) && Tidy(sentence)
    requires |buf| + |sentence| + 1 <= max
    ensures Progress(sentences + [sentence], max, closed, open + [sentence], parts, Strip(buf + " " + sentence))
  {
    if open == [] {
      FlushAndStart(sentences, max, closed, open, sentence);
      StripSpaced(sentence);
      assert open + [sentence] == [sentence];
    } else {
      ExtendBlock(sentences, max, closed, open, sentence);
      StripJoined(buf, sentence);
    }
  }

  lemma StripJoined(a: string, b: string)
    requires Tidy(a) && Tidy(b)
    ensures Tidy(a + " " + b) && Strip(a + " " + b) == a + " " + b
  {
    TidyJoin(a, b);
    StripTidy(a + " " + b);
  }

  lemma ProgressByFlushing(sentences: seq<string>, max: nat, closed: seq<seq<string>>, open: seq<string>,
                           parts: seq<string>, buf: string, sentence: string)
    requires max >= 1 && Progress(sentences, max, closed, open, parts, buf) && Tidy(sentence)
    requires |buf| + |sentence| + 1 > max
    ensures
      var done := Done(closed, open);
      var flushed := if buf != "" then parts + [buf] else parts;
      if |sentence| <= max then Progress(sentences + [sentence], max, done, [sentence], flushed, sentence)
      else Progress(sentences + [sentence], max, done + [[sentence]], [], flushed + Slices(sentence, max), "")
  {
    FlushOpen(sentences, max, closed, open);
    FlushAndStart(sentences, max, closed, open, sentence);
  }

  lemma ProgressEnds(sentences: seq<string>, max: nat, closed: seq<seq<string>>, open: seq<string>, parts: seq<string>, buf: string)
    requires max >= 1 && Progress(sentences, max, closed, open, parts, buf)
    ensures GreedyBlocks(sentences, max, Done(closed, open))
    ensures Rendered(Done(closed, open), max) == if buf != "" then parts + [buf] else parts
  {
    FlushOpen(sentences, max, closed, open);
  }

  /** One sentence: into the buffer, or after it, in slices if it alone is too long. */
  method PackOne(sentence: string, max: nat, parts0: seq<string>, buf0: string,
                 ghost packed: seq<string>, ghost closed0: seq<seq<string>>, ghost open0: seq<string>)
    returns (parts: seq<string>, buf: string, ghost closed: seq<seq<string>>, ghost open: seq<string>)
    requires max >= 1 && Tidy(sentence) && Progress(packed, max, closed0, open0, parts0, buf0)
    ensures Progress(packed + [sentence], max, closed, open, parts, buf)
  {
    if |buf0| + |sentence| + 1 <= max {
      ProgressByExtending(packed, max, closed0, open0, parts0, buf0, sentence);
      return parts0, Strip(buf0 + " " + sentence), closed0, open0 + [sentence];
    }
    ProgressByFlushing(packed, max, closed0, open0, parts0, buf0, sentence);
    closed := Done(closed0, open0);
    parts := if buf0 != "" then parts0 + [buf0] else parts0;
    if |sentence| <= max {
      buf, open := sentence, [sentence];
    } else {
      var pieces := SliceSentence(sentence, max);
      parts, buf := parts + pieces, "";
      closed, open := closed + [[sentence]], [];
    }
  }

  lemma ProgressStarts(max: nat)
    requires max >= 1
    ensures Progress([], max, [], [], [], "")
  {
  }

  lemma NextSentence(sentences: seq<string>, i: nat)
    requires AllTidy(sentences) && i < |sentences|
    ensures Tidy(sentences[i]) && Strip(sentences[i]) == sentences[i]
    ensures sentences[..i + 1] == sentences[..i] + [Strip(sentences[i])]
  {
    StripTidy(sentences[i]);
  }

  /** The chunks of the greedy blocks. */
  ghost predicate PackedFrom(sentences: seq<string>, max: nat, parts: seq<string>)
    requires max >= 1
  {
    exists blocks :: GreedyBlocks(sentences, max, blocks) && parts == Rendered(blocks, max)
  }

  method PackSentences(sentences: seq<string>, max: nat) returns (parts: seq<string>)
    requires max >= 1 && AllTidy(sentences)
    ensures PackedFrom(sentences, max, parts)
  {
    ProgressStarts(max);
    var buf := "";
    ghost var closed, open := [], [];
    parts := [];
    for i := 0 to |sentences|
      invariant Progress(sentences[..i], max, closed, open, parts, buf)
    {
      NextSentence(sentences, i);
      var sentence := Strip(sentences[i]);
      parts, buf, closed, open := PackOne(sentence, max, parts, buf, sentences[..i], closed, open);
    }
    assert sentences[..|sentences|] == sentences;
    ProgressEnds(sentences, max, closed, open, parts, buf);
    if buf != "" {
      parts := parts + [buf];
    }
    assert GreedyBlocks(sentences, max, Done(closed, open)) && parts == Rendered(Done(closed, open), max);
  }

  lemma StripSpaced(s: string)
    requires Tidy(s)
    ensures Strip("" + " " + s) == s
  {
    assert ("" + " " + s)[1..] == s;
    StripTidy(s);
  }

  /** What the text's chunks promise before the last filter. */
  ghost predicate ChunksOf(text: string, max: nat, parts: seq<string>)
    requires max >= 1
  {
    && PackedFrom(Sentences(Normalize(text), ""), max, parts)
    && (forall i :: 0 <= i < |parts| ==> |parts[i]| <= max)
    && NonSpace(Concat(parts)) == NonSpace(text)
  }

  lemma SentencesOfText(text: string)
    requires Normalize(text) != ""
    ensures AllTidy(Sentences(Normalize(text), "")) && Join(Sentences(Normalize(text), "")) == Normalize(text)
    ensures NonSpace(Concat(Sentences(Normalize(text), ""))) == NonSpace(text)
    ensures Sentences(Normalize(text), "") != []
  {
    var raw := Normalize(text);
    NormalizedIsTidy(text);
    assert "" + raw == raw;
    SentencesRebuild(raw, "");
    NonSpaceOfJoin(Sentences(raw, ""));
    SomeSentence(raw, "");
  }

  /** Blocks of the text's sentences make chunks that fit and lose nothing. */
  lemma BlocksKeepText(text: string, max: nat, parts: seq<string>)
    requires max >= 1 && Normalize(text) != "" && PackedFrom(Sentences(Normalize(text), ""), max, parts)
    ensures ChunksOf(text, max, parts)
  {
    var blocks :| GreedyBlocks(Sentences(Normalize(text), ""), max, blocks) && parts == Rendered(blocks, max);
    SentencesOfText(text);
    RenderedSizes(blocks, max);
    RenderedContent(blocks, max);
  }

  /** The sentences and the limit determine the chunks. */
  lemma PackingIsUnique(sentences: seq<string>, max: nat, a: seq<string>, b: seq<string>)
    requires max >= 1 && PackedFrom(sentences, max, a) && PackedFrom(sentences, max, b)
    ensures a == b
  {
    var s :| GreedyBlocks(sentences, max, s) && a == Rendered(s, max);
    var t :| GreedyBlocks(sentences, max, t) && b == Rendered(t, max);
    GreedyBlocksAreUnique(sentences, max, s, t);
  }

  lemma OneBlock(sentences: seq<string>, max: nat)
    requires max >= 1 && sentences != [] && |Join(sentences)| <= max
    ensures PackedFrom(sentences, max, [Join(sentences)])
  {
    CloseBlock([], sentences, max);
    assert [] + [sentences] == [sentences];
    assert GreedyBlocks(sentences, max, [sentences]) && Rendered([sentences], max) == [Join(sentences)];
  }

  method KeepLongParts(parts: seq<string>) returns (kept: seq<string>)
    ensures kept == LongEnough(parts)
  {
    kept := [];
    for i := 0 to |parts|
      invariant kept == LongEnough(parts[..i])
    {
      assert parts[..i + 1][..i] == parts[..i];
      if |Strip(parts[i])| > 20 {
        kept := kept + [parts[i]];
      }
    }
    assert parts[..|parts|] == parts;
  }

  /** None stands for the error Python raises for a step of zero. */
  method ChunkTextForTraining(text: string, maxChunk: int) returns (chunks: Option<seq<string>>)
    ensures chunks.None? <==> maxChunk == 0 && Normalize(text) != ""
    ensures maxChunk < 0 || Normalize(text) == "" ==> chunks == Some([])
    ensures maxChunk >= 1 && Normalize(text) != "" ==>
              exists parts :: ChunksOf(text, maxChunk, parts) && chunks == Some(LongEnough(parts))
  {
    var raw := Normalize(text);
    if raw == "" {
      return Some([]);
    }
    SentencesOfText(text);
    var sentences := Sentences(raw, "");
    var parts: seq<string>;
    if |raw| <= maxChunk {
      parts := [raw];
      OneBlock(sentences, maxChunk);
    } else if maxChunk == 0 {
      return None;
    } else if maxChunk < 0 {
      return Some([]);
    } else {
      parts := PackSentences(sentences, maxChunk);
    }
    BlocksKeepText(text, maxChunk, parts);
    var kept := KeepLongParts(parts);
    chunks := Some(kept);
  }

  /** `places` are, in order, where the kept parts stood, and all places of parts with more than 20 characters. */
  ghost predicate KeptFrom(parts: seq<string>, kept: seq<string>, places: seq<nat>) {
    && |places| == |kept|
    && (forall i :: 0 <= i < |places| ==> places[i] < |parts| && kept[i] == parts[places[i]])
    && (forall i, j :: 0 <= i < j < |places| ==> places[i] < places[j])
    && (forall k :: 0 <= k < |parts| ==> (k in places <==> |Strip(parts[k])| > 20))
  }

  lemma KeepNext(parts: seq<string>, kept: seq<string>, places: seq<nat>, part: string)
    requires KeptFrom(parts, kept, places)
    ensures |Strip(part)| > 20 ==> KeptFrom(parts + [part], kept + [part], places + [|parts|])
    ensures |Strip(part)| <= 20 ==> KeptFrom(parts + [part], kept, places)
  {
    assert |parts| !in places;
  }

  /** The kept parts are exactly the long ones, each as often as it occurs and in their order. */
  lemma {:induction false} FilterKeepsOrder(parts: seq<string>) returns (places: seq<nat>)
    ensures KeptFrom(parts, LongEnough(parts), places)
  {
    if parts == [] {
      places := [];
    } else {
      var n := |parts| - 1;
      var before := FilterKeepsOrder(parts[..n]);
      KeepNext(parts[..n], LongEnough(parts[..n]), before, parts[n]);
      assert parts == parts[..n] + [parts[n]] && LongEnough(parts[..n]) + [] == LongEnough(parts[..n]);
      places := if |Strip(parts[n])| > 20 then before + [n] else before;
    }
  }

  lemma {:induction false} KeptFromIsUnique(parts: seq<string>, a: seq<string>, p: seq<nat>, b: seq<string>, q: seq<nat>)
    requires KeptFrom(parts, a, p) && KeptFrom(parts, b, q)
    ensures a == b
    decreases |parts|
  {
    if parts == [] {
      NothingKept(parts, a, p);
      NothingKept(parts, b, q);
    } else {
      var n := |parts| - 1;
      assert n in p <==> n in q;
      var a', p' := WithoutLast(parts, a, p);
      var b', q' := WithoutLast(parts, b, q);
      KeptFromIsUnique(parts[..n], a', p', b', q');
    }
  }

  lemma NothingKept(parts: seq<string>, kept: seq<string>, places: seq<nat>)
    requires KeptFrom(parts, kept, places)
    ensures kept != [] ==> parts != []
  {
    if kept != [] {
      assert places[0] < |parts|;
    }
  }

  lemma WithoutLast(parts: seq<string>, kept: seq<string>, places: seq<nat>) returns (k: seq<string>, p: seq<nat>)
    requires KeptFrom(parts, kept, places) && parts != []
    ensures KeptFrom(parts[..|parts| - 1], k, p)
    ensures kept == if |parts| - 1 in places then k + [parts[|parts| - 1]] else k
  {
    var n, m := |parts| - 1, |places| - 1;
    if n in places {
      var i :| 0 <= i < |places| && places[i] == n;
      assert places[m] <= n && i <= m;
      assert i == m;
      k, p := kept[..m], places[..m];
      assert places == p + [n] && kept == k + [parts[n]];
    } else {
      k, p := kept, places;
    }
  }

  lemma {:induction false} LongPartsOnly(parts: seq<string>)
    ensures forall p :: p in LongEnough(parts) <==> p in parts && |Strip(p)| > 20
    ensures (forall i :: 0 <= i < |parts| ==> |Strip(parts[i])| > 20) <==> LongEnough(parts) == parts
    ensures |LongEnough(parts)| <= |parts|
  {
    if parts != [] {
      var n := |parts| - 1;
      LongPartsOnly(parts[..n]);
      assert parts == parts[..n] + [parts[n]];
    }
  }

  /** The filter loses exactly the parts with at most 20 characters between their ends' white space, and keeps
      the others in order, each as often as it occurs. */
  lemma FilterLosesOnlyFragments(parts: seq<string>)
    ensures exists places :: KeptFrom(parts, LongEnough(parts), places)
    ensures forall p :: p in LongEnough(parts) <==> p in parts && |Strip(p)| > 20
    ensures (forall i :: 0 <= i < |parts| ==> |Strip(parts[i])| > 20) <==> LongEnough(parts) == parts
  {
    var places := FilterKeepsOrder(parts);
    LongPartsOnly(parts);
  }
}
