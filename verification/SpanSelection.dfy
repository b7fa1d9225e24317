/** Overlapping matches: the longer one wins (backend/shared/text/span_utils.py).

    The code sorts by length and start, keeps every match that overlaps none kept before it, and sorts
    what is left by start. Its promise is stated on spans without mentioning lists or sorting, and
    proved to have exactly one solution.
 */
module SpanSelection {
  import opened Basics

  datatype Match = Match(start: int, end: int, kind: string, value: string)

  datatype Span = Span(start: int, end: int)

  function SpanOf(m: Match): Span { Span(m.start, m.end) }

  predicate Overlap(a: Span, b: Span) { a.start < b.end && a.end > b.start }

  /** Longer first, then leftmost. */
  predicate Before(a: Span, b: Span) {
    a.end - a.start > b.end - b.start || (a.end - a.start == b.end - b.start && a.start < b.start)
  }

  predicate ByLength(a: Match, b: Match) { !Before(SpanOf(b), SpanOf(a)) }

  predicate ByStart(a: Match, b: Match) { a.start <= b.start }

  // ------------------------------------------------------------------ the promise

  /** A span is dropped exactly when an earlier kept span overlaps it. */
  ghost predicate LongerWins(all: set<Span>, kept: set<Span>) {
    && kept <= all
    && forall x :: x in all ==> (x !in kept <==> exists y :: y in kept && Before(y, x) && Overlap(y, x))
  }

  lemma LeastSpan(s: set<Span>) returns (least: Span)
    requires s != {}
    ensures least in s && forall x :: x in s && x != least ==> Before(least, x)
    decreases |s|
  {
    least :| least in s;
    if s != {least} {
      var other := LeastSpan(s - {least});
      assert s == (s - {least}) + {least};
      if Before(other, least) {
        least := other;
      }
    }
  }

  lemma FirstDifference(k1: set<Span>, k2: set<Span>) returns (x: Span)
    requires k1 != k2
    ensures (x in k1) != (x in k2)
    ensures forall y :: Before(y, x) ==> (y in k1) == (y in k2)
  {
    var differing := (k1 - k2) + (k2 - k1);
    if differing == {} {
      assert forall y :: y in k1 <==> y in k2;
    }
    x := LeastSpan(differing);
    forall y | Before(y, x)
      ensures (y in k1) == (y in k2)
    {
      assert !Before(x, y) && y != x;
      assert y !in differing;
    }
  }

  lemma SameBelowSameHere(all: set<Span>, k1: set<Span>, k2: set<Span>, x: Span)
    requires LongerWins(all, k1) && LongerWins(all, k2)
    requires forall y :: Before(y, x) ==> (y in k1) == (y in k2)
    ensures x in k1 ==> x in k2
  {
    if x in k1 {
      assert x in all;
      assert forall y :: y in k2 && Before(y, x) ==> y in k1;
    }
  }

  /** The promise determines the kept set. */
  lemma LongerWinsIsUnique(all: set<Span>, k1: set<Span>, k2: set<Span>)
    requires LongerWins(all, k1) && LongerWins(all, k2)
    ensures k1 == k2
  {
    if k1 != k2 {
      var x := FirstDifference(k1, k2);
      SameBelowSameHere(all, k1, k2, x);
      SameBelowSameHere(all, k2, k1, x);
      assert false;
    }
  }

  // ------------------------------------------------------------------ stable sorting and the greedy scan

  function Insert(x: Match, s: seq<Match>, le: (Match, Match) -> bool): seq<Match> {
    if s == [] || le(x, s[0]) then [x] + s else [s[0]] + Insert(x, s[1..], le)
  }

  /** Python's sorted: stable. */
  function Sorted(s: seq<Match>, le: (Match, Match) -> bool): seq<Match> {
    if s == [] then [] else Insert(s[0], Sorted(s[1..], le), le)
  }

  ghost predicate InOrder(s: seq<Match>, le: (Match, Match) -> bool) {
    forall i, j :: 0 <= i < j < |s| ==> le(s[i], s[j])
  }

  predicate Free(kept: seq<Match>, m: Match) {
    forall i :: 0 <= i < |kept| ==> !Overlap(SpanOf(kept[i]), SpanOf(m))
  }

  function Greedy(s: seq<Match>): seq<Match> {
    if s == [] then []
    else
      var kept := Greedy(s[..|s| - 1]);
      if Free(kept, s[|s| - 1]) then kept + [s[|s| - 1]] else kept
  }

  function Selected(matches: seq<Match>): seq<Match> {
    Sorted(Greedy(Sorted(matches, ByLength)), ByStart)
  }

  function Spans(s: seq<Match>): set<Span> { set m | m in s :: SpanOf(m) }

  ghost predicate Disjoint(s: seq<Match>) {
    forall i, j :: 0 <= i < j < |s| ==> !Overlap(SpanOf(s[i]), SpanOf(s[j]))
  }

  lemma {:induction false} InsertKeeps(x: Match, s: seq<Match>, le: (Match, Match) -> bool)
    ensures multiset(Insert(x, s, le)) == multiset([x] + s)
    ensures forall m :: m in Insert(x, s, le) <==> m == x || m in s
  {
    if s == [] || le(x, s[0]) {
    } else {
      InsertKeeps(x, s[1..], le);
      assert s == [s[0]] + s[1..];
    }
  }

  lemma {:induction false} SortedKeeps(s: seq<Match>, le: (Match, Match) -> bool)
    ensures multiset(Sorted(s, le)) == multiset(s)
    ensures forall m :: m in Sorted(s, le) <==> m in s
    ensures |Sorted(s, le)| == |s|
  {
    if s != [] {
      SortedKeeps(s[1..], le);
      InsertKeeps(s[0], Sorted(s[1..], le), le);
      assert s == [s[0]] + s[1..];
      assert |multiset(Sorted(s, le))| == |multiset(s)|;
    }
  }

  lemma {:induction false} InsertIsDisjoint(x: Match, s: seq<Match>, le: (Match, Match) -> bool)
    requires Disjoint(s) && Free(s, x)
    ensures Disjoint(Insert(x, s, le))
  {
    if s != [] && !le(x, s[0]) {
      InsertIsDisjoint(x, s[1..], le);
      InsertKeeps(x, s[1..], le);
      var rest := Insert(x, s[1..], le);
      forall j | 0 <= j < |rest| ensures !Overlap(SpanOf(s[0]), SpanOf(rest[j])) {
        assert rest[j] in rest;
        if rest[j] != x {
          assert rest[j] in s[1..];
        }
      }
    }
  }

  lemma {:induction false} SortedIsDisjoint(s: seq<Match>, le: (Match, Match) -> bool)
    requires Disjoint(s)
    ensures Disjoint(Sorted(s, le))
  {
    if s != [] {
      SortedIsDisjoint(s[1..], le);
      SortedKeeps(s[1..], le);
      var rest := Sorted(s[1..], le);
      forall j | 0 <= j < |rest| ensures !Overlap(SpanOf(rest[j]), SpanOf(s[0])) {
        assert rest[j] in s[1..];
      }
      InsertIsDisjoint(s[0], rest, le);
    }
  }

  ghost predicate TotalPreorder(le: (Match, Match) -> bool) {
    && (forall a, b :: le(a, b) || le(b, a))
    && (forall a, b, c :: le(a, b) && le(b, c) ==> le(a, c))
  }

  lemma {:induction false} InsertInOrder(x: Match, s: seq<Match>, le: (Match, Match) -> bool)
    requires TotalPreorder(le) && InOrder(s, le)
    ensures InOrder(Insert(x, s, le), le)
  {
    if s == [] {
    } else if le(x, s[0]) {
      assert forall j :: 0 <= j < |s| ==> le(s[0], s[j]);
    } else {
      InsertInOrder(x, s[1..], le);
      InsertKeeps(x, s[1..], le);
      var rest := Insert(x, s[1..], le);
      forall j | 0 <= j < |rest| ensures le(s[0], rest[j]) {
        assert rest[j] in rest;
        if rest[j] != x {
          assert rest[j] in s[1..];
        }
      }
    }
  }

  lemma {:induction false} SortedInOrder(s: seq<Match>, le: (Match, Match) -> bool)
    requires TotalPreorder(le)
    ensures InOrder(Sorted(s, le), le)
  {
    if s != [] {
      SortedInOrder(s[1..], le);
      InsertInOrder(s[0], Sorted(s[1..], le), le);
    }
  }

  lemma OrdersAreTotal()
    ensures TotalPreorder(ByLength) && TotalPreorder(ByStart)
  {
  }

  lemma {:induction false} GreedyIsDisjoint(s: seq<Match>)
    ensures Disjoint(Greedy(s))
    ensures forall m :: m in Greedy(s) ==> m in s
  {
    if s != [] {
      GreedyIsDisjoint(s[..|s| - 1]);
      assert s == s[..|s| - 1] + [s[|s| - 1]];
    }
  }

  lemma {:induction false} GreedyInOrder(s: seq<Match>)
    requires InOrder(s, ByLength)
    ensures InOrder(Greedy(s), ByLength)
  {
    if s != [] {
      var n := |s| - 1;
      GreedyInOrder(s[..n]);
      GreedyIsDisjoint(s[..n]);
      var kept := Greedy(s[..n]);
      forall i | 0 <= i < |kept| ensures ByLength(kept[i], s[n]) {
        assert kept[i] in s[..n];
      }
    }
  }

  /** Every match dropped by the scan is overlapped by a kept one that came earlier. */
  lemma {:induction false} GreedyDropsOverlapped(s: seq<Match>, j: nat)
    requires j < |s| && s[j] !in Greedy(s)
    ensures exists i :: 0 <= i < j && s[i] in Greedy(s) && Overlap(SpanOf(s[i]), SpanOf(s[j]))
  {
    var n := |s| - 1;
    var kept := Greedy(s[..n]);
    if j < n {
      GreedyDropsOverlapped(s[..n], j);
      var i :| 0 <= i < j && s[..n][i] in kept && Overlap(SpanOf(s[..n][i]), SpanOf(s[..n][j]));
      assert s[i] in Greedy(s);
    } else {
      var k :| 0 <= k < |kept| && Overlap(SpanOf(kept[k]), SpanOf(s[n]));
      GreedyIsDisjoint(s[..n]);
      assert kept[k] in s[..n];
      var i :| 0 <= i < n && s[i] == kept[k];
      assert s[i] in Greedy(s);
    }
  }

  /** The scan's kept spans are the promised set. */
  lemma GreedyMeetsPromise(s: seq<Match>)
    requires InOrder(s, ByLength)
    ensures LongerWins(Spans(s), Spans(Greedy(s)))
  {
    GreedyIsDisjoint(s);
    var all, kept := Spans(s), Spans(Greedy(s));
    forall x | x in all
      ensures x !in kept <==> exists y :: y in kept && Before(y, x) && Overlap(y, x)
    {
      var j := FirstWith(s, x);
      if x !in kept {
        assert s[j] !in Greedy(s);
        GreedyDropsOverlapped(s, j);
        var i :| 0 <= i < j && s[i] in Greedy(s) && Overlap(SpanOf(s[i]), SpanOf(s[j]));
        assert ByLength(s[i], s[j]);
        assert SpanOf(s[i]) in kept && SpanOf(s[i]) != x;
      } else {
        forall y | y in kept && Before(y, x)
          ensures !Overlap(y, x)
        {
          var a :| a in Greedy(s) && SpanOf(a) == y;
          var b :| b in Greedy(s) && SpanOf(b) == x;
          var p :| 0 <= p < |Greedy(s)| && Greedy(s)[p] == a;
          var q :| 0 <= q < |Greedy(s)| && Greedy(s)[q] == b;
          assert p != q;
        }
      }
    }
  }

  lemma FirstWith(s: seq<Match>, x: Span) returns (j: nat)
    requires x in Spans(s)
    ensures j < |s| && SpanOf(s[j]) == x && forall i :: 0 <= i < j ==> SpanOf(s[i]) != x
  {
    j := 0;
    while SpanOf(s[j]) != x
      invariant j < |s| && (forall i :: 0 <= i < j ==> SpanOf(s[i]) != x)
      invariant exists m :: m in s[j..] && SpanOf(m) == x
      decreases |s| - j
    {
      j := j + 1;
    }
  }

  // ------------------------------------------------------------------ theorems about the result

  lemma SelectedFacts(matches: seq<Match>)
    ensures
      var byLength := Sorted(matches, ByLength);
      && InOrder(byLength, ByLength) && Spans(byLength) == Spans(matches)
      && Spans(Selected(matches)) == Spans(Greedy(byLength))
      && multiset(Selected(matches)) == multiset(Greedy(byLength))
      && InOrder(Selected(matches), ByStart)
  {
    OrdersAreTotal();
    SortedKeeps(matches, ByLength);
    SortedInOrder(matches, ByLength);
    SortedKeeps(Greedy(Sorted(matches, ByLength)), ByStart);
    SortedInOrder(Greedy(Sorted(matches, ByLength)), ByStart);
  }

  /** The kept spans are the one set that satisfies the promise. */
  lemma SelectionIsTheUniqueOne(matches: seq<Match>, kept: set<Span>)
    ensures LongerWins(Spans(matches), kept) <==> kept == Spans(Selected(matches))
  {
    SelectedFacts(matches);
    GreedyMeetsPromise(Sorted(matches, ByLength));
    if LongerWins(Spans(matches), kept) {
      LongerWinsIsUnique(Spans(matches), kept, Spans(Selected(matches)));
    }
  }

  /** No two matches of the result overlap, they stand in order of start, they come from the input,
      and every dropped match is overlapped by a kept one at least as long. */
  lemma SelectionIsDisjointSortedAndMaximal(matches: seq<Match>)
    ensures
      var out := Selected(matches);
      && (forall i, j :: 0 <= i < j < |out| ==> !Overlap(SpanOf(out[i]), SpanOf(out[j])) && out[i].start <= out[j].start)
      && (forall m :: m in out ==> m in matches)
      && (forall m :: m in matches && m !in out ==>
            exists k :: k in out && Overlap(SpanOf(k), SpanOf(m)) && k.end - k.start >= m.end - m.start)
  {
    var byLength := Sorted(matches, ByLength);
    var kept, out := Greedy(byLength), Selected(matches);
    SelectedFacts(matches);
    SortedKeeps(matches, ByLength);
    SortedKeeps(kept, ByStart);
    GreedyIsDisjoint(byLength);
    SortedIsDisjoint(kept, ByStart);
    forall i, j | 0 <= i < j < |out|
      ensures !Overlap(SpanOf(out[i]), SpanOf(out[j])) && out[i].start <= out[j].start
    {
      assert ByStart(out[i], out[j]);
    }
    forall m | m in matches && m !in out
      ensures exists k :: k in out && Overlap(SpanOf(k), SpanOf(m)) && k.end - k.start >= m.end - m.start
    {
      assert m in byLength && m !in kept;
      var j :| 0 <= j < |byLength| && byLength[j] == m;
      GreedyDropsOverlapped(byLength, j);
      var i :| 0 <= i < j && byLength[i] in kept && Overlap(SpanOf(byLength[i]), SpanOf(byLength[j]));
      assert ByLength(byLength[i], byLength[j]) && byLength[i] in out;
    }
  }

  // The spans of the result are a function of the spans of the input, whatever their order.

  function SpanList(s: seq<Match>): seq<Span> { seq(|s|, i requires 0 <= i < |s| => SpanOf(s[i])) }

  lemma {:induction false} GreedyBySpan(s: seq<Match>, t: seq<Match>)
    requires SpanList(s) == SpanList(t)
    ensures SpanList(Greedy(s)) == SpanList(Greedy(t))
  {
    assert |s| == |SpanList(s)| == |t|;
    if s != [] {
      var n := |s| - 1;
      assert SpanList(s[..n]) == SpanList(s)[..n] == SpanList(t[..n]);
      GreedyBySpan(s[..n], t[..n]);
      assert SpanOf(s[n]) == SpanList(s)[n] == SpanOf(t[n]);
      var a, b := Greedy(s[..n]), Greedy(t[..n]);
      assert |a| == |SpanList(a)| == |b|;
      assert forall i :: 0 <= i < |a| ==> SpanOf(a[i]) == SpanList(a)[i] == SpanOf(b[i]);
      assert Free(a, s[n]) <==> Free(b, t[n]);
    }
  }

  lemma {:induction false} InsertBySpan(x: Match, s: seq<Match>, y: Match, t: seq<Match>)
    requires SpanList(s) == SpanList(t) && SpanOf(x) == SpanOf(y)
    ensures SpanList(Insert(x, s, ByStart)) == SpanList(Insert(y, t, ByStart))
  {
    assert |s| == |SpanList(s)| == |t|;
    if s != [] {
      assert SpanOf(s[0]) == SpanList(s)[0] == SpanOf(t[0]);
      assert SpanList(s[1..]) == SpanList(s)[1..] == SpanList(t[1..]);
      InsertBySpan(x, s[1..], y, t[1..]);
      if !ByStart(x, s[0]) {
        assert SpanList(Insert(x, s, ByStart)) == [SpanOf(s[0])] + SpanList(Insert(x, s[1..], ByStart));
        assert SpanList(Insert(y, t, ByStart)) == [SpanOf(t[0])] + SpanList(Insert(y, t[1..], ByStart));
      } else {
        assert SpanList([x] + s) == [SpanOf(x)] + SpanList(s);
        assert SpanList([y] + t) == [SpanOf(y)] + SpanList(t);
      }
    }
  }

  lemma {:induction false} SortBySpan(s: seq<Match>, t: seq<Match>)
    requires SpanList(s) == SpanList(t)
    ensures SpanList(Sorted(s, ByStart)) == SpanList(Sorted(t, ByStart))
  {
    assert |s| == |SpanList(s)| == |t|;
    if s != [] {
      assert SpanOf(s[0]) == SpanList(s)[0] == SpanOf(t[0]);
      assert SpanList(s[1..]) == SpanList(s)[1..] == SpanList(t[1..]);
      SortBySpan(s[1..], t[1..]);
      InsertBySpan(s[0], Sorted(s[1..], ByStart), t[0], Sorted(t[1..], ByStart));
    }
  }

  lemma RemoveFromBag(t: seq<Match>, k: nat)
    requires k < |t|
    ensures multiset(t) == multiset{t[k]} + multiset(t[..k] + t[k + 1..])
  {
    assert t == t[..k] + [t[k]] + t[k + 1..];
  }

  lemma SameBagTail(s: seq<Match>, t: seq<Match>) returns (k: nat)
    requires multiset(s) == multiset(t) && s != []
    ensures k < |t| && t[k] == s[0] && multiset(s[1..]) == multiset(t[..k] + t[k + 1..])
  {
    k := FindInBag(s[0], s, t);
    RemoveFromBag(t, k);
    RemoveFromBag(s, 0);
    assert s[..0] + s[1..] == s[1..];
    CancelOne(s[0], multiset(s[1..]), multiset(t[..k] + t[k + 1..]));
  }

  lemma FindInBag(x: Match, s: seq<Match>, t: seq<Match>) returns (k: nat)
    requires multiset(s) == multiset(t) && x in s
    ensures k < |t| && t[k] == x
  {
    assert x in multiset(s);
    assert x in multiset(t);
    k :| 0 <= k < |t| && t[k] == x;
  }

  lemma CancelOne(x: Match, a: multiset<Match>, b: multiset<Match>)
    requires multiset{x} + a == multiset{x} + b
    ensures a == b
  {
    assert a == (multiset{x} + a) - multiset{x};
    assert b == (multiset{x} + b) - multiset{x};
  }

  lemma RemoveFromSpanBag(t: seq<Match>, k: nat)
    requires k < |t|
    ensures multiset(SpanList(t)) == multiset{SpanOf(t[k])} + multiset(SpanList(t[..k] + t[k + 1..]))
  {
    var rest := SpanList(t[..k] + t[k + 1..]);
    assert SpanList(t) == rest[..k] + [SpanOf(t[k])] + rest[k..];
    assert rest == rest[..k] + rest[k..];
  }

  lemma FirstFromSpanBag(s: seq<Match>)
    requires s != []
    ensures multiset(SpanList(s)) == multiset{SpanOf(s[0])} + multiset(SpanList(s[1..]))
  {
    RemoveFromSpanBag(s, 0);
    assert s[..0] + s[1..] == s[1..];
  }

  lemma {:induction false} SameSpanBag(s: seq<Match>, t: seq<Match>)
    requires multiset(s) == multiset(t)
    ensures multiset(SpanList(s)) == multiset(SpanList(t))
    decreases |s|
  {
    if s == [] {
      assert |multiset(t)| == 0;
    } else {
      var k := SameBagTail(s, t);
      var rest := t[..k] + t[k + 1..];
      SameSpanBag(s[1..], rest);
      FirstFromSpanBag(s);
      RemoveFromSpanBag(t, k);
    }
  }

  ghost predicate SpansInOrder(s: seq<Span>) {
    forall i, j :: 0 <= i < j < |s| ==> !Before(s[j], s[i])
  }

  lemma HeadIsFirst(s: seq<Span>, x: Span)
    requires SpansInOrder(s) && x in multiset(s)
    ensures s != [] && !Before(x, s[0])
  {
    var j :| 0 <= j < |s| && s[j] == x;
  }

  lemma SameHead(s: seq<Span>, t: seq<Span>)
    requires SpansInOrder(s) && SpansInOrder(t) && multiset(s) == multiset(t) && s != []
    ensures t != [] && s[0] == t[0]
  {
    assert s[0] in multiset(s);
    HeadIsFirst(t, s[0]);
    assert t[0] in multiset(t);
    HeadIsFirst(s, t[0]);
  }

  lemma SpanTail(s: seq<Span>)
    requires SpansInOrder(s) && s != []
    ensures SpansInOrder(s[1..]) && s == [s[0]] + s[1..]
    ensures multiset(s[1..]) == multiset(s) - multiset{s[0]}
  {
    assert s == [s[0]] + s[1..];
  }

  /** Spans are told apart by length and start, so in-order lists of the same spans are the same list. */
  lemma {:induction false} OrderedBagIsUnique(s: seq<Span>, t: seq<Span>)
    requires SpansInOrder(s) && SpansInOrder(t) && multiset(s) == multiset(t)
    ensures s == t
    decreases |s|
  {
    if s == [] {
      assert |multiset(t)| == 0;
    } else {
      SameHead(s, t);
      SpanTail(s);
      SpanTail(t);
      OrderedBagIsUnique(s[1..], t[1..]);
    }
  }

  /** Reordering the input does not change the spans of the result, nor their order. */
  lemma SpansIgnoreInputOrder(s: seq<Match>, t: seq<Match>)
    requires multiset(s) == multiset(t)
    ensures SpanList(Selected(s)) == SpanList(Selected(t))
  {
    var a, b := Sorted(s, ByLength), Sorted(t, ByLength);
    OrdersAreTotal();
    SortedKeeps(s, ByLength);
    SortedKeeps(t, ByLength);
    SortedInOrder(s, ByLength);
    SortedInOrder(t, ByLength);
    SameSpanBag(a, b);
    forall i, j | 0 <= i < j < |a| ensures !Before(SpanList(a)[j], SpanList(a)[i]) {
      assert ByLength(a[i], a[j]);
    }
    forall i, j | 0 <= i < j < |b| ensures !Before(SpanList(b)[j], SpanList(b)[i]) {
      assert ByLength(b[i], b[j]);
    }
    OrderedBagIsUnique(SpanList(a), SpanList(b));
    GreedyBySpan(a, b);
    SortBySpan(Greedy(a), Greedy(b));
  }

  // A second application changes nothing, not even the order of ties.

  predicate StartThenLength(a: Match, b: Match) {
    a.start < b.start || (a.start == b.start && ByLength(a, b))
  }

  lemma {:induction false} InsertAfterLaterStarts(x: Match, s: seq<Match>)
    requires forall i :: 0 <= i < |s| ==> StartThenLength(x, s[i])
    ensures Sorted(Insert(x, s, ByLength), ByStart) == [x] + Sorted(s, ByStart)
  {
    if s == [] {
      assert Sorted([x], ByStart) == Insert(x, Sorted([x][1..], ByStart), ByStart);
    } else if ByLength(x, s[0]) {
      assert ([x] + s)[1..] == s;
      SortedKeeps(s, ByStart);
      var rest := Sorted(s, ByStart);
      assert rest[0] in s;
    } else {
      var rest := Insert(x, s[1..], ByLength);
      InsertAfterLaterStarts(x, s[1..]);
      assert ([s[0]] + rest)[1..] == rest;
      var tail := Sorted(s[1..], ByStart);
      assert Insert(s[0], [x] + tail, ByStart) == [x] + Insert(s[0], tail, ByStart) by {
        assert ([x] + tail)[1..] == tail;
      }
    }
  }

  lemma {:induction false} ResortIsIdentity(s: seq<Match>)
    requires InOrder(s, StartThenLength)
    ensures Sorted(Sorted(s, ByLength), ByStart) == s
  {
    if s != [] {
      ResortIsIdentity(s[1..]);
      SortedKeeps(s[1..], ByLength);
      var rest := Sorted(s[1..], ByLength);
      forall i | 0 <= i < |rest| ensures StartThenLength(s[0], rest[i]) {
        assert rest[i] in s[1..];
        var j :| 0 <= j < |s[1..]| && s[1..][j] == rest[i];
        assert StartThenLength(s[0], s[j + 1]);
      }
      InsertAfterLaterStarts(s[0], rest);
    }
  }

  lemma {:induction false} StableInsert(x: Match, s: seq<Match>)
    requires InOrder(s, StartThenLength) && forall i :: 0 <= i < |s| ==> ByLength(x, s[i])
    ensures InOrder(Insert(x, s, ByStart), StartThenLength)
  {
    if s == [] {
    } else if ByStart(x, s[0]) {
      assert forall j :: 0 < j < |s| ==> StartThenLength(s[0], s[j]);
    } else {
      StableInsert(x, s[1..]);
      InsertKeeps(x, s[1..], ByStart);
      var rest := Insert(x, s[1..], ByStart);
      forall j | 0 <= j < |rest| ensures StartThenLength(s[0], rest[j]) {
        assert rest[j] in rest;
        if rest[j] != x {
          assert rest[j] in s[1..];
        }
      }
    }
  }

  lemma {:induction false} StableSort(s: seq<Match>)
    requires InOrder(s, ByLength)
    ensures InOrder(Sorted(s, ByStart), StartThenLength)
  {
    if s != [] {
      StableSort(s[1..]);
      SortedKeeps(s[1..], ByStart);
      var rest := Sorted(s[1..], ByStart);
      forall i | 0 <= i < |rest| ensures ByLength(s[0], rest[i]) {
        assert rest[i] in s[1..];
        var j :| 0 <= j < |s[1..]| && s[1..][j] == rest[i];
        assert ByLength(s[0], s[j + 1]);
      }
      StableInsert(s[0], rest);
    }
  }

  lemma {:induction false} GreedyOfDisjoint(s: seq<Match>)
    requires Disjoint(s)
    ensures Greedy(s) == s
  {
    if s != [] {
      GreedyOfDisjoint(s[..|s| - 1]);
      assert s == s[..|s| - 1] + [s[|s| - 1]];
    }
  }

  lemma SelectionIsIdempotent(matches: seq<Match>)
    ensures Selected(Selected(matches)) == Selected(matches)
  {
    var byLength := Sorted(matches, ByLength);
    var out := Selected(matches);
    SelectedFacts(matches);
    GreedyIsDisjoint(byLength);
    GreedyInOrder(byLength);
    StableSort(Greedy(byLength));
    SortedIsDisjoint(Greedy(byLength), ByStart);
    SortedIsDisjoint(out, ByLength);
    GreedyOfDisjoint(Sorted(out, ByLength));
    ResortIsIdentity(out);
  }

  predicate Holds(s: Span, p: int) { s.start <= p < s.end }

  /** Non-empty spans overlap exactly if they share a place; spans that only touch do not. */
  lemma OverlapIff(a: Span, b: Span)
    requires a.start < a.end && b.start < b.end
    ensures Overlap(a, b) <==> exists p :: Holds(a, p) && Holds(b, p)
  {
    if Overlap(a, b) {
      var p := if a.start < b.start then b.start else a.start;
      assert Holds(a, p) && Holds(b, p);
    }
  }

  // ------------------------------------------------------------------ which of several equal spans survives

  function First(s: seq<Match>, x: Span): (m: Option<Match>)
    ensures m.Some? <==> x in Spans(s)
    ensures m.Some? ==> m.value in s && SpanOf(m.value) == x
  {
    if s == [] then None
    else if SpanOf(s[0]) == x then Some(s[0])
    else
      assert s == [s[0]] + s[1..];
      First(s[1..], x)
  }

  lemma {:induction false} FirstOfInsert(m: Match, s: seq<Match>, le: (Match, Match) -> bool, x: Span)
    requires forall a :: SpanOf(a) == SpanOf(m) ==> le(m, a)
    ensures First(Insert(m, s, le), x) == if SpanOf(m) == x then Some(m) else First(s, x)
  {
    if s != [] && !le(m, s[0]) {
      FirstOfInsert(m, s[1..], le, x);
    }
  }

  lemma {:induction false} FirstOfSorted(s: seq<Match>, x: Span)
    ensures First(Sorted(s, ByLength), x) == First(s, x)
  {
    if s != [] {
      FirstOfSorted(s[1..], x);
      FirstOfInsert(s[0], Sorted(s[1..], ByLength), ByLength, x);
    }
  }

  lemma {:induction false} FirstOfAppend(s: seq<Match>, m: Match, x: Span)
    ensures First(s + [m], x) == if First(s, x).Some? then First(s, x) else if SpanOf(m) == x then Some(m) else None
  {
    if s != [] {
      FirstOfAppend(s[1..], m, x);
      assert (s + [m])[1..] == s[1..] + [m];
    }
  }

  lemma KeptSpanIsNew(s: seq<Match>, m: Match)
    requires Free(Greedy(s), m) && m.start < m.end
    ensures First(s, SpanOf(m)).None?
  {
    if First(s, SpanOf(m)).Some? {
      var i :| 0 <= i < |s| && SpanOf(s[i]) == SpanOf(m);
      if s[i] !in Greedy(s) {
        GreedyDropsOverlapped(s, i);
      }
    }
  }

  lemma {:induction false} GreedyKeepsFirst(s: seq<Match>, m: Match)
    requires m in Greedy(s) && m.start < m.end
    ensures First(s, SpanOf(m)) == Some(m)
  {
    var n := |s| - 1;
    assert s == s[..n] + [s[n]];
    FirstOfAppend(s[..n], s[n], SpanOf(m));
    if m in Greedy(s[..n]) {
      GreedyKeepsFirst(s[..n], m);
    } else {
      KeptSpanIsNew(s[..n], m);
    }
  }

  /** Among matches with the same non-empty span, the first of the input survives, with its kind and value. */
  lemma SelectedIsFirst(matches: seq<Match>, m: Match)
    requires m in Selected(matches) && m.start < m.end
    ensures First(matches, SpanOf(m)) == Some(m)
  {
    var byLength := Sorted(matches, ByLength);
    SortedKeeps(Greedy(byLength), ByStart);
    GreedyKeepsFirst(byLength, m);
    FirstOfSorted(matches, SpanOf(m));
  }

  /** Two orders of the same non-empty matches give the same output exactly if each match of the one output comes
      first, among those with its span, in the other order too. */
  lemma SameOutputIff(s: seq<Match>, t: seq<Match>)
    requires multiset(s) == multiset(t) && forall m :: m in s ==> m.start < m.end
    ensures Selected(s) == Selected(t) <==> forall m :: m in Selected(s) ==> First(t, SpanOf(m)) == Some(m)
  {
    var a, b := Selected(s), Selected(t);
    SelectionIsDisjointSortedAndMaximal(s);
    SelectionIsDisjointSortedAndMaximal(t);
    if a == b {
      forall m | m in a ensures First(t, SpanOf(m)) == Some(m) {
        SelectedIsFirst(t, m);
      }
    }
    if forall m :: m in a ==> First(t, SpanOf(m)) == Some(m) {
      SpansIgnoreInputOrder(s, t);
      SameListByFirst(s, t, a, b);
    }
  }

  lemma SameListByFirst(s: seq<Match>, t: seq<Match>, a: seq<Match>, b: seq<Match>)
    requires a == Selected(s) && b == Selected(t) && SpanList(a) == SpanList(b)
    requires forall m :: m in a ==> m.start < m.end && First(t, SpanOf(m)) == Some(m)
    ensures a == b
  {
    assert |a| == |SpanList(a)| == |b|;
    forall i | 0 <= i < |a| ensures a[i] == b[i] {
      assert SpanOf(a[i]) == SpanList(a)[i] == SpanOf(b[i]);
      SelectedIsFirst(t, b[i]);
    }
  }

  // ------------------------------------------------------------------ the code

  method DeduplicateMatchesLongerWins(matches: seq<Match>) returns (out: seq<Match>)
    ensures out == Selected(matches)
    ensures LongerWins(Spans(matches), Spans(out))
  {
    SelectionIsTheUniqueOne(matches, Spans(Selected(matches)));
    if |matches| == 0 {
      return [];
    }
    var byLength := Sorted(matches, ByLength);
    var kept := [];
    for i := 0 to |byLength|
      invariant kept == Greedy(byLength[..i])
    {
      assert byLength[..i + 1][..i] == byLength[..i];
      if exists k :: 0 <= k < |kept| && kept[k].start < byLength[i].end && kept[k].end > byLength[i].start {
        continue;
      }
      kept := kept + [byLength[i]];
    }
    assert byLength[..|byLength|] == byLength;
    out := Sorted(kept, ByStart);
  }
}
