/** Plain text: paragraphs are exactly the maximal runs of non-blank lines. */
module Paragraphs {
  import opened Numerals

  /** A run of lines; `start` counts from 1. */
  datatype Group = Group(start: nat, lines: seq<string>)

  datatype Block = Block(path: string, ordinal: nat, lines: seq<string>, start: nat, end: nat)

  /** Lines `from..to` are non-blank, and neither neighbour is. */
  predicate MaximalRun(lines: seq<string>, blank: string -> bool, from: nat, to: nat) {
    && from < to <= |lines|
    && (forall i :: from <= i < to ==> !blank(lines[i]))
    && (from > 0 ==> blank(lines[from - 1]))
    && (to < |lines| ==> blank(lines[to]))
  }

  predicate GroupRight(lines: seq<string>, blank: string -> bool, g: Group) {
    && g.start >= 1 && g.start - 1 + |g.lines| <= |lines|
    && g.lines == lines[g.start - 1..g.start - 1 + |g.lines|]
    && MaximalRun(lines, blank, g.start - 1, g.start - 1 + |g.lines|)
  }

  ghost predicate Ordered(groups: seq<Group>) {
    forall i, j :: 0 <= i < j < |groups| ==> groups[i].start + |groups[i].lines| <= groups[j].start
  }

  predicate Holds(g: Group, x: nat) {
    g.start - 1 <= x < g.start - 1 + |g.lines|
  }

  ghost predicate InSome(groups: seq<Group>, x: nat) {
    exists i :: 0 <= i < |groups| && Holds(groups[i], x)
  }

  ghost predicate GroupsRight(lines: seq<string>, blank: string -> bool, groups: seq<Group>, upto: nat)
    requires upto <= |lines|
  {
    && (forall i :: 0 <= i < |groups| ==>
          GroupRight(lines, blank, groups[i]) && groups[i].start - 1 + |groups[i].lines| <= upto)
    && Ordered(groups)
    && forall x :: 0 <= x < upto && !blank(lines[x]) ==> InSome(groups, x)
  }

  lemma RunsMeet(lines: seq<string>, blank: string -> bool, a: nat, b: nat, c: nat, d: nat, x: nat)
    requires MaximalRun(lines, blank, a, b) && MaximalRun(lines, blank, c, d) && a <= x < b && c <= x < d
    ensures a == c && b == d
  {
  }

  lemma GroupOfRun(lines: seq<string>, blank: string -> bool, g: Group, from: nat, to: nat)
    requires from < to <= |lines| && GroupRight(lines, blank, g) && MaximalRun(lines, blank, from, to) && Holds(g, from)
    ensures g == Group(from + 1, lines[from..to])
  {
    hide MaximalRun;
    RunsMeet(lines, blank, from, to, g.start - 1, g.start - 1 + |g.lines|, from);
    assert g.start - 1 == from && g.start - 1 + |g.lines| == to;
  }

  lemma RunOfGroup(lines: seq<string>, blank: string -> bool, from: nat, to: nat)
    requires from < to <= |lines| && GroupRight(lines, blank, Group(from + 1, lines[from..to]))
    ensures MaximalRun(lines, blank, from, to)
  {
  }

  /** The groups are the maximal runs, no more and no fewer. */
  lemma GroupsAreTheMaximalRuns(lines: seq<string>, blank: string -> bool, groups: seq<Group>, from: nat, to: nat)
    requires GroupsRight(lines, blank, groups, |lines|)
    ensures MaximalRun(lines, blank, from, to)
       <==> from < to <= |lines| && Group(from + 1, lines[from..to]) in groups
  {
    hide GroupRight;
    if MaximalRun(lines, blank, from, to) {
      assert InSome(groups, from);
      var i :| 0 <= i < |groups| && Holds(groups[i], from);
      GroupOfRun(lines, blank, groups[i], from, to);
    }
    hide MaximalRun;
    if from < to <= |lines| && Group(from + 1, lines[from..to]) in groups {
      RunOfGroup(lines, blank, from, to);
    }
  }

  lemma GroupsGrow(lines: seq<string>, blank: string -> bool, groups: seq<Group>, g: Group, upto: nat)
    requires g.start >= 1 && g.start - 1 <= upto <= |lines| && GroupsRight(lines, blank, groups, g.start - 1)
    requires GroupRight(lines, blank, g) && g.start - 1 + |g.lines| <= upto
    requires forall x :: g.start - 1 + |g.lines| <= x < upto ==> blank(lines[x])
    ensures GroupsRight(lines, blank, groups + [g], upto)
  {
    hide GroupRight;
    var longer := groups + [g];
    forall x | 0 <= x < upto && !blank(lines[x]) ensures InSome(longer, x) {
      if x < g.start - 1 {
        assert InSome(groups, x);
        var i :| 0 <= i < |groups| && Holds(groups[i], x);
        assert Holds(longer[i], x);
      } else {
        assert Holds(longer[|groups|], x);
      }
    }
  }

  lemma GroupsSkip(lines: seq<string>, blank: string -> bool, groups: seq<Group>, n: nat)
    requires n < |lines| && blank(lines[n]) && GroupsRight(lines, blank, groups, n)
    ensures GroupsRight(lines, blank, groups, n + 1)
  {
    hide GroupRight, InSome;
  }

  /** The lines collected since `start`, up to line `n`. */
  ghost predicate Collecting(lines: seq<string>, blank: string -> bool, current: seq<string>, start: nat, n: nat) {
    && 1 <= start <= n <= |lines| && current == lines[start - 1..n]
    && (start > 1 ==> blank(lines[start - 2])) && forall i :: start - 1 <= i < n ==> !blank(lines[i])
  }

  lemma CollectedGroup(lines: seq<string>, blank: string -> bool, current: seq<string>, start: nat, n: nat)
    requires Collecting(lines, blank, current, start, n) && current != [] && (n < |lines| ==> blank(lines[n]))
    ensures GroupRight(lines, blank, Group(start, current)) && start - 1 + |current| == n
  {
    assert |current| == n - (start - 1);
  }

  lemma CollectOne(lines: seq<string>, blank: string -> bool, current: seq<string>, start: nat, n: nat)
    requires n < |lines| && !blank(lines[n])
    requires if current == [] then start == n + 1 && (n > 0 ==> blank(lines[n - 1]))
             else Collecting(lines, blank, current, start, n)
    ensures Collecting(lines, blank, current + [lines[n]], start, n + 1)
  {
    assert lines[start - 1..n + 1] == lines[start - 1..n] + [lines[n]];
  }

  method ParagraphGroups(lines: seq<string>, blank: string -> bool) returns (groups: seq<Group>)
    ensures GroupsRight(lines, blank, groups, |lines|)
  {
    groups := [];
    assert GroupsRight(lines, blank, groups, 0);
    hide GroupsRight, GroupRight, Collecting;
    var current: seq<string>, start: nat := [], 1;
    for n := 0 to |lines|
      invariant current == [] ==> GroupsRight(lines, blank, groups, n) && (n > 0 ==> blank(lines[n - 1]))
      invariant current != [] ==>
                  1 <= start <= n && Collecting(lines, blank, current, start, n)
                      && GroupsRight(lines, blank, groups, start - 1)
    {
      var line := lines[n];
      if !blank(line) {
        if current == [] {
          start := n + 1;
        }
        CollectOne(lines, blank, current, start, n);
        current := current + [line];
      } else if current != [] {
        CollectedGroup(lines, blank, current, start, n);
        GroupsGrow(lines, blank, groups, Group(start, current), n + 1);
        groups := groups + [Group(start, current)];
        current := [];
      } else {
        GroupsSkip(lines, blank, groups, n);
      }
    }
    if current != [] {
      CollectedGroup(lines, blank, current, start, |lines|);
      GroupsGrow(lines, blank, groups, Group(start, current), |lines|);
      groups := groups + [Group(start, current)];
    }
  }

  function ParagraphPath(ordinal: nat): string {
    "paragraph:" + Numeral(ordinal, 10)
  }

  /** One block per maximal run, numbered in order, with the run's own line numbers. */
  ghost predicate BlocksRight(lines: seq<string>, blank: string -> bool, blocks: seq<Block>) {
    && (forall i :: 0 <= i < |blocks| ==> BlockRight(lines, blank, blocks[i], i))
    && (forall i, j :: 0 <= i < j < |blocks| ==> blocks[i].end < blocks[j].start)
    && forall x :: 0 <= x < |lines| && !blank(lines[x]) ==> exists i :: 0 <= i < |blocks| && Spans(blocks[i], x + 1)
  }

  predicate BlockRight(lines: seq<string>, blank: string -> bool, b: Block, i: nat) {
    && b.ordinal == i && b.path == ParagraphPath(i)
    && 1 <= b.start <= b.end <= |lines| && b.lines == lines[b.start - 1..b.end]
    && MaximalRun(lines, blank, b.start - 1, b.end)
  }

  predicate Spans(b: Block, line: nat) {
    b.start <= line <= b.end
  }

  function BlockOf(g: Group, i: nat): Block
    requires g.start + |g.lines| >= 1
  {
    Block(ParagraphPath(i), i, g.lines, g.start, g.start + |g.lines| - 1)
  }

  lemma GroupBlock(lines: seq<string>, blank: string -> bool, g: Group, i: nat)
    requires GroupRight(lines, blank, g)
    ensures g.start + |g.lines| >= 1 && BlockRight(lines, blank, BlockOf(g, i), i)
  {
    hide ParagraphPath;
  }

  lemma GroupBlocks(lines: seq<string>, blank: string -> bool, groups: seq<Group>, blocks: seq<Block>)
    requires GroupsRight(lines, blank, groups, |lines|) && |blocks| == |groups|
    requires forall i :: 0 <= i < |blocks| ==>
               groups[i].start + |groups[i].lines| >= 1 && blocks[i] == BlockOf(groups[i], i)
    ensures BlocksRight(lines, blank, blocks)
  {
    hide GroupRight, BlockRight, ParagraphPath;
    forall i | 0 <= i < |blocks| ensures BlockRight(lines, blank, blocks[i], i) {
      GroupBlock(lines, blank, groups[i], i);
    }
    forall x | 0 <= x < |lines| && !blank(lines[x]) ensures exists i :: 0 <= i < |blocks| && Spans(blocks[i], x + 1) {
      assert InSome(groups, x);
      var i :| 0 <= i < |groups| && Holds(groups[i], x);
      assert Spans(blocks[i], x + 1);
    }
  }

  method TextStructure(lines: seq<string>, blank: string -> bool) returns (blocks: seq<Block>)
    ensures BlocksRight(lines, blank, blocks)
  {
    hide ParagraphPath, GroupRight, BlocksRight;
    var groups := ParagraphGroups(lines, blank);
    blocks := [];
    for ordinal := 0 to |groups|
      invariant |blocks| == ordinal
      invariant forall i :: 0 <= i < ordinal ==>
                  groups[i].start + |groups[i].lines| >= 1 && blocks[i] == BlockOf(groups[i], i)
    {
      var g := groups[ordinal];
      GroupBlock(lines, blank, g, ordinal);
      blocks := blocks + [Block(ParagraphPath(ordinal), ordinal, g.lines, g.start, g.start + |g.lines| - 1)];
    }
    GroupBlocks(lines, blank, groups, blocks);
  }
}
