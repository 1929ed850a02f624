/** Reciprocal-rank fusion of channel rankings, with exact rational scores. */
module RankFusion {
  import opened Wrappers

  type Ranking = seq<string>

  // ---------------------------------------------------------------- scores and first appearances

  function RankScore(r: Ranking, c: string): real {
    if r == [] then 0.0
    else RankScore(r[..|r| - 1], c) + if r[|r| - 1] == c then 1.0 / (|r| as real) else 0.0
  }

  function Score(channels: seq<Ranking>, c: string): real {
    if channels == [] then 0.0
    else Score(channels[..|channels| - 1], c) + RankScore(channels[|channels| - 1], c)
  }

  function SeenAfter(before: seq<string>, r: Ranking): (seen: seq<string>)
    ensures before <= seen
  {
    if r == [] then before
    else
      var seen := SeenAfter(before, r[..|r| - 1]);
      if r[|r| - 1] in seen then seen else seen + [r[|r| - 1]]
  }

  /** The distinct candidates in order of first appearance. */
  function Seen(channels: seq<Ranking>): seq<string> {
    if channels == [] then [] else SeenAfter(Seen(channels[..|channels| - 1]), channels[|channels| - 1])
  }

  ghost predicate Occurs(channels: seq<Ranking>, c: string) {
    exists i :: 0 <= i < |channels| && c in channels[i]
  }

  lemma {:induction false} SeenAfterIsExact(before: seq<string>, r: Ranking)
    requires NoDup(before)
    ensures NoDup(SeenAfter(before, r))
    ensures forall c :: c in SeenAfter(before, r) <==> c in before || c in r
  {
    if r != [] {
      SeenAfterIsExact(before, r[..|r| - 1]);
      assert r == r[..|r| - 1] + [r[|r| - 1]];
    }
  }

  lemma {:induction false} SeenIsExact(channels: seq<Ranking>)
    ensures NoDup(Seen(channels))
    ensures forall c :: c in Seen(channels) <==> Occurs(channels, c)
  {
    hide SeenAfter;
    if channels != [] {
      var before, last := channels[..|channels| - 1], channels[|channels| - 1];
      SeenIsExact(before);
      SeenAfterIsExact(Seen(before), last);
      forall c ensures c in Seen(channels) <==> Occurs(channels, c) {
        if Occurs(before, c) {
          var i :| 0 <= i < |before| && c in before[i];
          assert c in channels[i];
        }
        if c in last {
          assert c in channels[|channels| - 1];
        }
      }
    }
  }

  // ---------------------------------------------------------------- the order of the result

  /** The first index of `c`, or the length. */
  function Position(s: seq<string>, c: string): (k: nat)
    ensures k <= |s| && (k < |s| <==> c in s)
    ensures k < |s| ==> s[k] == c
    ensures forall i :: 0 <= i < k ==> s[i] != c
  {
    if s == [] || s[0] == c then 0 else 1 + Position(s[1..], c)
  }

  /** The sort key: falling score, then rising first appearance. */
  predicate Above(a: string, b: string, score: string -> real, first: string -> nat) {
    score(a) > score(b) || (score(a) == score(b) && first(a) < first(b))
  }

  ghost predicate Descending(out: seq<string>, score: string -> real, first: string -> nat) {
    forall i, j :: 0 <= i < j < |out| ==> Above(out[i], out[j], score, first)
  }

  /** `out` lists `seen`, each candidate once, by that key. */
  ghost predicate Ranked(out: seq<string>, seen: seq<string>, score: string -> real, first: string -> nat) {
    NoDup(out) && (forall c :: c in out <==> c in seen) && Descending(out, score, first)
  }

  /** There is only one such listing. */
  lemma RankedIsUnique(p: seq<string>, q: seq<string>, seen: seq<string>, score: string -> real, first: string -> nat)
    requires Ranked(p, seen, score, first) && Ranked(q, seen, score, first)
    ensures p == q
  {
    NoDupSize(p);
    NoDupSize(q);
    assert (set c | c in p) == (set c | c in q);
    SamePrefix(p, q, seen, score, first, |p|);
    assert p[..|p|] == p && q[..|q|] == q;
  }

  lemma {:induction false} NoDupSize(s: seq<string>)
    requires NoDup(s)
    ensures |set c | c in s| == |s|
  {
    if s != [] {
      var last, before := s[|s| - 1], s[..|s| - 1];
      NoDupSize(before);
      assert s == before + [last];
      assert (set c | c in s) == (set c | c in before) + {last};
    }
  }

  lemma {:induction false} SamePrefix(p: seq<string>, q: seq<string>, seen: seq<string>, score: string -> real,
                                      first: string -> nat, k: nat)
    requires Ranked(p, seen, score, first) && Ranked(q, seen, score, first)
    requires k <= |p| && k <= |q|
    ensures p[..k] == q[..k]
  {
    if k > 0 {
      SamePrefix(p, q, seen, score, first, k - 1);
      LaterIsBelow(p, q, seen, score, first, k - 1);
      LaterIsBelow(q, p, seen, score, first, k - 1);
      assert p[..k] == p[..k - 1] + [p[k - 1]] && q[..k] == q[..k - 1] + [q[k - 1]];
    }
  }

  /** Where two listings first differ, each puts its own candidate above the other's. */
  lemma LaterIsBelow(p: seq<string>, q: seq<string>, seen: seq<string>, score: string -> real, first: string -> nat,
                     k: nat)
    requires k < |p| && k < |q| && p[..k] == q[..k] && Ranked(p, seen, score, first) && Ranked(q, seen, score, first)
    ensures p[k] != q[k] ==> Above(q[k], p[k], score, first)
  {
    hide Above;
    forall x | 0 <= x < k ensures p[x] == q[x] {
      assert p[..k][x] == q[..k][x];
    }
    assert p[k] in q;
    var i :| 0 <= i < |q| && q[i] == p[k];
    assert i >= k;
  }

  // ---------------------------------------------------------------- the algorithm

  /** Where a candidate goes among sorted ones: before everything it is above. */
  function Insert(out: seq<string>, c: string, score: string -> real, first: string -> nat): seq<string> {
    if out == [] || !Above(c, out[|out| - 1], score, first) then out + [c]
    else Insert(out[..|out| - 1], c, score, first) + [out[|out| - 1]]
  }

  /** The candidates sorted by the key. */
  function Sorted(seen: seq<string>, score: string -> real, first: string -> nat): seq<string> {
    if seen == [] then [] else Insert(Sorted(seen[..|seen| - 1], score, first), seen[|seen| - 1], score, first)
  }

  lemma {:induction false} InsertKeepsElements(out: seq<string>, c: string, score: string -> real, first: string -> nat)
    requires NoDup(out) && c !in out
    ensures NoDup(Insert(out, c, score, first))
              && forall x :: (x in Insert(out, c, score, first) <==> x in out || x == c)
  {
    if out != [] && Above(c, out[|out| - 1], score, first) {
      var last, before := out[|out| - 1], out[..|out| - 1];
      InsertKeepsElements(before, c, score, first);
      assert out == before + [last] && last !in before;
    }
  }

  lemma {:induction false} InsertKeepsOrder(out: seq<string>, c: string, score: string -> real, first: string -> nat)
    requires NoDup(out) && c !in out && Descending(out, score, first)
    requires forall x :: x in out ==> first(x) != first(c)
    ensures Descending(Insert(out, c, score, first), score, first)
  {
    if out != [] {
      var last, before := out[|out| - 1], out[..|out| - 1];
      assert out == before + [last];
      assert forall i :: 0 <= i < |before| ==> Above(out[i], last, score, first);
      if Above(c, last, score, first) {
        InsertKeepsOrder(before, c, score, first);
        InsertKeepsElements(before, c, score, first);
        assert forall x :: x in before ==> Above(x, last, score, first);
      } else {
        assert Above(last, c, score, first);
      }
    }
  }

  /** Keys that differ sort to the one listing. */
  lemma {:induction false} SortedIsRanked(seen: seq<string>, score: string -> real, first: string -> nat)
    requires NoDup(seen) && forall i, j :: 0 <= i < j < |seen| ==> first(seen[i]) != first(seen[j])
    ensures Ranked(Sorted(seen, score, first), seen, score, first)
  {
    hide Above, Insert;
    if seen != [] {
      var before, c := seen[..|seen| - 1], seen[|seen| - 1];
      assert seen == before + [c];
      SortedIsRanked(before, score, first);
      InsertKeepsOrder(Sorted(before, score, first), c, score, first);
      InsertKeepsElements(Sorted(before, score, first), c, score, first);
    }
  }

  ghost function ScoreOf(channels: seq<Ranking>): string -> real {
    c => Score(channels, c)
  }

  ghost function FirstOf(seen: seq<string>): string -> nat {
    c => Position(seen, c)
  }

  /** What the fused ranking is. */
  ghost predicate Fused(channels: seq<Ranking>, out: seq<string>) {
    Ranked(out, Seen(channels), ScoreOf(channels), FirstOf(Seen(channels)))
  }

  /** What the two dictionaries hold once the candidates in `order` were seen, with scores `score`. */
  ghost predicate Tallied(order: seq<string>, score: string -> real, scores: map<string, real>,
                          firstSeen: map<string, nat>)
  {
    && NoDup(order) && |firstSeen| == |order|
    && (forall c :: c in scores <==> c in order)
    && (forall c :: c in firstSeen <==> c in order)
    && (forall i :: 0 <= i < |order| ==> firstSeen[order[i]] == i)
    && forall c :: score(c) == if c in scores then scores[c] else 0.0
  }

  /** The score after `n` whole channels and `m` entries of the next. */
  ghost function ScoreAt(channels: seq<Ranking>, n: nat, m: nat): string -> real
    requires n < |channels| && m <= |channels[n]|
  {
    c => Score(channels[..n], c) + RankScore(channels[n][..m], c)
  }

  ghost function OrderAt(channels: seq<Ranking>, n: nat, m: nat): seq<string>
    requires n < |channels| && m <= |channels[n]|
  {
    SeenAfter(Seen(channels[..n]), channels[n][..m])
  }

  lemma TallyStep(order: seq<string>, score: string -> real, scores: map<string, real>, firstSeen: map<string, nat>,
                  c: string, points: real, score': string -> real)
    requires Tallied(order, score, scores, firstSeen)
    requires forall x :: score'(x) == score(x) + if x == c then points else 0.0
    ensures Tallied(if c in order then order else order + [c], score',
                    scores[c := (if c in scores then scores[c] else 0.0) + points],
                    if c in firstSeen then firstSeen else firstSeen[c := |firstSeen|])
  {
    if c !in firstSeen {
      assert firstSeen[c := |firstSeen|].Keys == firstSeen.Keys + {c};
      assert |firstSeen[c := |firstSeen|].Keys| == |firstSeen| + 1;
    }
  }

  lemma EntryCounts(channels: seq<Ranking>, n: nat, m: nat)
    requires n < |channels| && m < |channels[n]|
    ensures var c, before := channels[n][m], OrderAt(channels, n, m);
            && OrderAt(channels, n, m + 1) == (if c in before then before else before + [c])
            && forall x :: ScoreAt(channels, n, m + 1)(x)
                        == ScoreAt(channels, n, m)(x) + if x == c then 1.0 / ((m + 1) as real) else 0.0
  {
    assert channels[n][..m + 1][..m] == channels[n][..m];
  }

  lemma ChannelStarts(channels: seq<Ranking>, n: nat)
    requires n < |channels|
    ensures OrderAt(channels, n, 0) == Seen(channels[..n])
    ensures forall x :: ScoreAt(channels, n, 0)(x) == ScoreOf(channels[..n])(x)
  {
  }

  lemma ChannelEnds(channels: seq<Ranking>, n: nat)
    requires n < |channels|
    ensures Seen(channels[..n + 1]) == OrderAt(channels, n, |channels[n]|)
    ensures forall x :: ScoreOf(channels[..n + 1])(x) == ScoreAt(channels, n, |channels[n]|)(x)
  {
    assert channels[..n + 1][..n] == channels[..n] && channels[n][..|channels[n]|] == channels[n];
  }

  /** `order` is the insertion order that both dictionaries share. */
  method Fuse(channels: seq<Ranking>) returns (out: seq<string>)
    ensures Fused(channels, out)
  {
    hide Tallied, OrderAt, ScoreAt, ScoreOf, Seen, Fused, Sorted;
    var scores: map<string, real>, firstSeen: map<string, nat>, order: seq<string> := map[], map[], [];
    NothingTallied(channels);
    for n := 0 to |channels|
      invariant order == Seen(channels[..n]) && Tallied(order, ScoreOf(channels[..n]), scores, firstSeen)
      invariant forall c :: c in firstSeen <==> c in order
    {
      var ranking := channels[n];
      ChannelStarts(channels, n);
      SameTally(order, ScoreOf(channels[..n]), ScoreAt(channels, n, 0), scores, firstSeen);
      for m := 0 to |ranking|
        invariant order == OrderAt(channels, n, m) && Tallied(order, ScoreAt(channels, n, m), scores, firstSeen)
        invariant forall c :: c in firstSeen <==> c in order
      {
        var candidate, points := ranking[m], 1.0 / ((m + 1) as real);
        EntryCounts(channels, n, m);
        TallyStep(order, ScoreAt(channels, n, m), scores, firstSeen, candidate, points, ScoreAt(channels, n, m + 1));
        scores := scores[candidate := (if candidate in scores then scores[candidate] else 0.0) + points];
        if candidate !in firstSeen {
          firstSeen := firstSeen[candidate := |firstSeen|];
          order := order + [candidate];
        }
      }
      ChannelEnds(channels, n);
      SameTally(order, ScoreAt(channels, n, |ranking|), ScoreOf(channels[..n + 1]), scores, firstSeen);
    }
    assert channels[..|channels|] == channels;
    KeysAgree(order, ScoreOf(channels), scores, firstSeen);
    var score: string -> real := c => if c in scores then scores[c] else 0.0;
    var first: string -> nat := c => if c in firstSeen then firstSeen[c] else |order|;
    FusedBy(channels, order, score, first);
    out := Sorted(order, score, first);
  }

  lemma NothingTallied(channels: seq<Ranking>)
    ensures Seen(channels[..0]) == [] && Tallied([], ScoreOf(channels[..0]), map[], map[])
  {
  }

  lemma SameTally(order: seq<string>, score: string -> real, score': string -> real, scores: map<string, real>,
                  firstSeen: map<string, nat>)
    requires Tallied(order, score, scores, firstSeen) && forall x :: score'(x) == score(x)
    ensures Tallied(order, score', scores, firstSeen)
  {
  }

  lemma {:induction false} SortSame(seen: seq<string>, score: string -> real, score': string -> real,
                                    first: string -> nat, first': string -> nat)
    requires forall x :: score'(x) == score(x) && first'(x) == first(x)
    ensures Sorted(seen, score', first') == Sorted(seen, score, first)
  {
    hide Insert;
    if seen != [] {
      SortSame(seen[..|seen| - 1], score, score', first, first');
      InsertSame(Sorted(seen[..|seen| - 1], score, first), seen[|seen| - 1], score, score', first, first');
    }
  }

  lemma {:induction false} InsertSame(out: seq<string>, c: string, score: string -> real, score': string -> real,
                                      first: string -> nat, first': string -> nat)
    requires forall x :: score'(x) == score(x) && first'(x) == first(x)
    ensures Insert(out, c, score', first') == Insert(out, c, score, first)
  {
    if out != [] {
      InsertSame(out[..|out| - 1], c, score, score', first, first');
    }
  }

  lemma FirstIsPosition(order: seq<string>, firstSeen: map<string, nat>, c: string)
    requires NoDup(order) && (forall c :: c in firstSeen <==> c in order)
    requires forall i :: 0 <= i < |order| ==> firstSeen[order[i]] == i
    ensures Position(order, c) == if c in firstSeen then firstSeen[c] else |order|
  {
    if c in order {
      assert order[Position(order, c)] == c;
    }
  }

  lemma PositionOfDistinct(seen: seq<string>)
    requires NoDup(seen)
    ensures forall i :: 0 <= i < |seen| ==> Position(seen, seen[i]) == i
  {
  }

  lemma KeysAgree(order: seq<string>, score: string -> real, scores: map<string, real>, firstSeen: map<string, nat>)
    requires Tallied(order, score, scores, firstSeen)
    ensures forall c :: score(c) == if c in scores then scores[c] else 0.0
    ensures forall c :: FirstOf(order)(c) == if c in firstSeen then firstSeen[c] else |order|
  {
    forall c ensures Position(order, c) == if c in firstSeen then firstSeen[c] else |order| {
      FirstIsPosition(order, firstSeen, c);
    }
  }

  lemma FusedBy(channels: seq<Ranking>, order: seq<string>, score: string -> real, first: string -> nat)
    requires order == Seen(channels)
    requires forall c :: score(c) == ScoreOf(channels)(c) && first(c) == FirstOf(order)(c)
    ensures Fused(channels, Sorted(order, score, first))
  {
    hide Ranked, Seen, ScoreOf;
    SeenIsExact(channels);
    PositionOfDistinct(order);
    SortedIsRanked(order, ScoreOf(channels), FirstOf(order));
    SortSame(order, ScoreOf(channels), score, FirstOf(order), first);
  }

  // ---------------------------------------------------------------- what fusion guarantees

  /** The fused ranking is unique and lists every distinct candidate exactly once. */
  lemma FusedIsUnique(channels: seq<Ranking>, p: seq<string>, q: seq<string>)
    requires Fused(channels, p) && Fused(channels, q)
    ensures p == q && NoDup(p) && forall c :: (c in p <==> Occurs(channels, c))
  {
    RankedIsUnique(p, q, Seen(channels), ScoreOf(channels), FirstOf(Seen(channels)));
    SeenIsExact(channels);
  }

  /** One candidate precedes another exactly when its score is higher, or equal with an earlier first appearance. */
  lemma OrderIsExact(channels: seq<Ranking>, out: seq<string>, a: string, b: string)
    requires Fused(channels, out) && a in out && b in out && a != b
    ensures Position(out, a) < Position(out, b)
       <==> Score(channels, a) > Score(channels, b)
            || (Score(channels, a) == Score(channels, b) && Position(Seen(channels), a) < Position(Seen(channels), b))
  {
    hide Score, Seen, NoDup;
    var i, j := Position(out, a), Position(out, b);
    assert out[i] == a && out[j] == b;
    if i < j {
      assert Above(out[i], out[j], ScoreOf(channels), FirstOf(Seen(channels)));
    } else {
      assert Above(out[j], out[i], ScoreOf(channels), FirstOf(Seen(channels)));
    }
  }

  lemma {:induction false} RankScoreOnce(r: Ranking, c: string)
    requires multiset(r)[c] <= 1
    ensures RankScore(r, c) == if c in r then 1.0 / ((Position(r, c) + 1) as real) else 0.0
  {
    if r != [] {
      var last, before := r[|r| - 1], r[..|r| - 1];
      assert r == before + [last];
      RankScoreOnce(before, c);
      if c in before {
        assert before[Position(before, c)] == c == r[Position(before, c)];
        SamePosition(before, r, c);
      } else if c == last {
        assert Position(r, c) == |before|;
      }
    }
  }

  /** However often a candidate is repeated, it scores at least for its first appearance. */
  lemma {:induction false} RankScoreAtLeast(r: Ranking, c: string)
    ensures RankScore(r, c) >= if c in r then 1.0 / ((Position(r, c) + 1) as real) else 0.0
  {
    if r != [] {
      var last, before := r[|r| - 1], r[..|r| - 1];
      assert r == before + [last];
      RankScoreAtLeast(before, c);
      if c in before {
        SamePosition(before, r, c);
      } else if c == last {
        assert Position(r, c) == |before|;
      }
    }
  }

  lemma SamePosition(before: seq<string>, s: seq<string>, c: string)
    requires before <= s && c in before
    ensures Position(s, c) == Position(before, c)
  {
    var k := Position(before, c);
    assert s[k] == before[k];
    assert forall i :: 0 <= i < k ==> s[i] == before[i];
  }

  /** No channel lists `c` more than `m` times. */
  ghost predicate RepeatsAtMost(channels: seq<Ranking>, c: string, m: nat) {
    forall i :: 0 <= i < |channels| ==> multiset(channels[i])[c] <= m
  }

  ghost predicate AheadIn(r: Ranking, a: string, b: string) {
    b in r ==> a in r && Position(r, a) < Position(r, b)
  }

  ghost predicate AheadInAll(channels: seq<Ranking>, a: string, b: string) {
    forall i :: 0 <= i < |channels| ==> AheadIn(channels[i], a, b)
  }

  lemma AheadOccurs(r: Ranking, a: string, b: string)
    requires AheadIn(r, a, b) && b in r
    ensures a in r
  {
  }

  lemma AheadScoresMore(r: Ranking, a: string, b: string)
    requires multiset(r)[b] <= 1 && AheadIn(r, a, b)
    ensures RankScore(r, a) >= RankScore(r, b) && (b in r ==> RankScore(r, a) > RankScore(r, b))
  {
    RankScoreAtLeast(r, a);
    RankScoreOnce(r, b);
    if b in r {
      ReciprocalFalls(Position(r, a) + 1, Position(r, b) + 1);
    }
  }

  lemma ReciprocalFalls(m: nat, n: nat)
    requires 0 < m < n
    ensures 1.0 / (m as real) > 1.0 / (n as real)
  {
  }

  lemma {:induction false} AheadEverywhereScoresMore(channels: seq<Ranking>, a: string, b: string)
    requires RepeatsAtMost(channels, b, 1) && AheadInAll(channels, a, b)
    ensures Score(channels, a) >= Score(channels, b)
    ensures Occurs(channels, b) ==> Score(channels, a) > Score(channels, b) && Occurs(channels, a)
  {
    hide AheadIn, RankScore;
    if channels != [] {
      var before, last := channels[..|channels| - 1], channels[|channels| - 1];
      AheadEverywhereScoresMore(before, a, b);
      AheadScoresMore(last, a, b);
      if Occurs(before, a) {
        var i :| 0 <= i < |before| && a in before[i];
        assert a in channels[i];
      }
      if Occurs(channels, b) && b !in last {
        var i :| 0 <= i < |channels| && b in channels[i];
        assert b in before[i];
      }
      if b in last {
        AheadOccurs(last, a, b);
      }
    }
  }

  /**
   Who is ahead of another wherever that one occurs is ahead of it in the fusion, as long as no channel repeats the
   one behind. The one ahead, and everybody else, may be repeated.
  */
  lemma DominanceIsKept(channels: seq<Ranking>, out: seq<string>, a: string, b: string)
    requires Fused(channels, out) && RepeatsAtMost(channels, b, 1) && b in out && a != b
    requires AheadInAll(channels, a, b)
    ensures a in out && Position(out, a) < Position(out, b)
  {
    hide AheadInAll, RepeatsAtMost, Score, Fused;
    FusedIsUnique(channels, out, out);
    AheadEverywhereScoresMore(channels, a, b);
    OrderIsExact(channels, out, a, b);
  }

  lemma {:induction false} SeenOfDistinct(before: seq<string>, r: Ranking)
    requires NoDup(before + r)
    ensures SeenAfter(before, r) == before + r
  {
    if r == [] {
      assert before + r == before;
    } else {
      var last, shorter, all := r[|r| - 1], r[..|r| - 1], before + r;
      assert all == before + shorter + [last];
      assert forall i :: 0 <= i < |before + shorter| ==> (before + shorter)[i] == all[i];
      assert last == all[|all| - 1] && last !in before + shorter;
      SeenOfDistinct(before, shorter);
    }
  }

  lemma {:induction false} DistinctOnce(r: Ranking, c: string)
    requires NoDup(r)
    ensures multiset(r)[c] <= 1
  {
    if r != [] {
      var last, before := r[|r| - 1], r[..|r| - 1];
      assert r == before + [last];
      DistinctOnce(before, c);
      assert last !in before;
    }
  }

  lemma SeenSingle(r: Ranking)
    requires NoDup(r)
    ensures Seen([r]) == r
  {
    var none: seq<Ranking> := [];
    assert [r][..0] == none && [] + r == r;
    SeenOfDistinct([], r);
  }

  lemma SingleKey(r: Ranking, i: nat)
    requires NoDup(r) && i < |r|
    ensures ScoreOf([r])(r[i]) == 1.0 / ((i + 1) as real) && FirstOf(r)(r[i]) == i
  {
    DistinctOnce(r, r[i]);
    RankScoreOnce(r, r[i]);
    assert Position(r, r[i]) == i;
    ScoreSingle(r, r[i]);
  }

  lemma ScoreSingle(r: Ranking, c: string)
    ensures Score([r], c) == RankScore(r, c)
  {
    var none: seq<Ranking> := [];
    assert [r][..|[r]| - 1] == none && Score(none, c) == 0.0;
  }

  /** Fusing a single channel is the identity exactly when the channel repeats nobody. */
  lemma SingleChannel(r: Ranking)
    ensures Fused([r], r) <==> NoDup(r)
  {
    hide NoDup, Seen, ScoreOf, FirstOf;
    if NoDup(r) {
      SeenSingle(r);
      forall i, j | 0 <= i < j < |r| ensures Above(r[i], r[j], ScoreOf([r]), FirstOf(r)) {
        SingleKey(r, i);
        SingleKey(r, j);
        ReciprocalFalls(i + 1, j + 1);
      }
    }
  }

  /** A channel that lists "b" just once too often: its points add up and carry it past the one ahead of it. */
  const REPEATED: Ranking := ["x", "a", "b", "b"]

  lemma FourScores(x: string, a: string, b: string, c: string)
    ensures RankScore([x, a, b, b], c)
         == (if x == c then 1.0 else 0.0) + (if a == c then 1.0 / 2.0 else 0.0)
            + (if b == c then 1.0 / 3.0 + 1.0 / 4.0 else 0.0)
  {
    hide RankScore;
    TwoScores(x, a, c);
    RankScoreSnoc([x, a], b, c);
    assert [x, a] + [b] == [x, a, b];
    RankScoreSnoc([x, a, b], b, c);
    assert [x, a, b] + [b] == [x, a, b, b];
  }

  lemma TwoScores(x: string, a: string, c: string)
    ensures RankScore([x, a], c) == (if x == c then 1.0 else 0.0) + (if a == c then 1.0 / 2.0 else 0.0)
  {
    var none: Ranking := [];
    assert RankScore(none, c) == 0.0;
    hide RankScore;
    RankScoreSnoc(none, x, c);
    assert none + [x] == [x];
    RankScoreSnoc([x], a, c);
    assert [x] + [a] == [x, a];
  }

  lemma RepeatedScores()
    ensures RankScore(REPEATED, "a") == 1.0 / 2.0 && RankScore(REPEATED, "b") == 1.0 / 3.0 + 1.0 / 4.0
  {
    hide RankScore;
    assert "a"[0] != "b"[0] && "x"[0] != "a"[0] && "x"[0] != "b"[0];
    FourScores("x", "a", "b", "a");
    FourScores("x", "a", "b", "b");
  }

  lemma RankScoreSnoc(r: Ranking, last: string, c: string)
    ensures RankScore(r + [last], c) == RankScore(r, c) + if last == c then 1.0 / ((|r| + 1) as real) else 0.0
  {
    assert (r + [last])[..|r|] == r;
  }

  lemma RepeatedAhead()
    ensures AheadIn(REPEATED, "a", "b") && multiset(REPEATED)["b"] == 2 && !NoDup(REPEATED)
    ensures "a" in REPEATED && "b" in REPEATED && "a" != "b"
  {
    assert "a"[0] != "b"[0] && "x"[0] != "a"[0] && "x"[0] != "b"[0];
    assert REPEATED[1] == "a" && REPEATED[2] == "b" == REPEATED[3];
  }

  /**
   With one repetition of a candidate both fail: it overtakes who is ahead
   of it, and the channel is not its own fusion.
  */
  lemma RepetitionOvertakes(out: seq<string>)
    requires Fused([REPEATED], out)
    ensures AheadInAll([REPEATED], "a", "b") && RepeatsAtMost([REPEATED], "b", 2)
    ensures "a" in out && "b" in out && Position(out, "b") < Position(out, "a") && out != REPEATED
  {
    RepeatedScores();
    RepeatedAhead();
    hide RankScore, Fused, AheadIn;
    ScoreSingle(REPEATED, "a");
    ScoreSingle(REPEATED, "b");
    FusedIsUnique([REPEATED], out, out);
    assert Occurs([REPEATED], "a") && Occurs([REPEATED], "b") by {
      assert "a" in [REPEATED][0] && "b" in [REPEATED][0];
    }
    OrderIsExact([REPEATED], out, "b", "a");
    SingleChannel(REPEATED);
  }

  /** Fusion respects dominance over candidates that no channel lists more than `m` times. */
  ghost predicate RespectsDominance(m: nat) {
    forall channels, out, a, b ::
      Fused(channels, out) && RepeatsAtMost(channels, b, m) && b in out && a != b && AheadInAll(channels, a, b) ==>
        a in out && Position(out, a) < Position(out, b)
  }

  /** Dominance is respected over candidates that are never repeated, and one repetition is already too many. */
  lemma DominanceThreshold(m: nat)
    ensures RespectsDominance(m) <==> m <= 1
  {
    hide Fused, AheadInAll;
    if m <= 1 {
      forall channels, out, a, b | Fused(channels, out) && RepeatsAtMost(channels, b, m) && b in out && a != b
                                   && AheadInAll(channels, a, b)
        ensures a in out && Position(out, a) < Position(out, b)
      {
        DominanceIsKept(channels, out, a, b);
      }
    } else {
      var seen := Seen([REPEATED]);
      var out := Sorted(seen, ScoreOf([REPEATED]), FirstOf(seen));
      FusedBy([REPEATED], seen, ScoreOf([REPEATED]), FirstOf(seen));
      RepetitionOvertakes(out);
      assert RepeatsAtMost([REPEATED], "b", m);
    }
  }
}
