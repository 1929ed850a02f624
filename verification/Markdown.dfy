/** The Markdown outline compiler: one pass over the lines that builds sections and blocks. */
module Markdown {
  import opened Wrappers
  import opened Numerals
  import opened HeadingTree

  datatype Heading = Heading(level: nat, text: string)

  /** One line as the compiler's patterns see it. */
  datatype Line = Line(text: string, blank: bool, heading: Option<Heading>, listItem: bool)

  datatype Kind = HeadingBlock | List | Table | Paragraph

  datatype Section = Section(path: string, heading: string, ordinal: nat, parent: Option<string>, line: nat, level: nat)

  /** `lines` are the source lines whose stripped join is the block's text; `start` and `end` count from 1. */
  datatype Block = Block(path: string, kind: Kind, ordinal: nat, lines: seq<Line>, section: Option<string>,
                         start: nat, end: nat)

  function KindName(k: Kind): string {
    match k
    case HeadingBlock => "heading_block"
    case List => "list"
    case Table => "table"
    case Paragraph => "paragraph"
  }

  function BlockPath(k: Kind, ordinal: nat): string {
    KindName(k) + ":" + Numeral(ordinal, 10)
  }

  // ---------------------------------------------------------------- what the outline of given lines is

  predicate IsHeading(l: Line) {
    l.heading.Some?
  }

  /** Lines that belong in the body of a block. */
  predicate IsBody(l: Line) {
    !IsHeading(l) && !l.blank
  }

  /** The 0-based indices of the heading lines among the first `n`. */
  function Headings(lines: seq<Line>, n: nat): (h: seq<nat>)
    requires n <= |lines|
    ensures forall i :: 0 <= i < |h| ==> h[i] < n && IsHeading(lines[h[i]])
    ensures forall i, j :: 0 <= i < j < |h| ==> h[i] < h[j]
    ensures forall x :: 0 <= x < n && IsHeading(lines[x]) ==> x in h
  {
    if n == 0 then []
    else if IsHeading(lines[n - 1]) then Headings(lines, n - 1) + [n - 1]
    else Headings(lines, n - 1)
  }

  function Levels(lines: seq<Line>, n: nat): (levels: seq<nat>)
    requires n <= |lines|
    ensures |levels| == |Headings(lines, n)|
    ensures forall i :: 0 <= i < |levels| ==> levels[i] == lines[Headings(lines, n)[i]].heading.value.level
  {
    if n == 0 then []
    else if IsHeading(lines[n - 1]) then Levels(lines, n - 1) + [lines[n - 1].heading.value.level]
    else Levels(lines, n - 1)
  }

  /** Section `k` describes heading `k`, under the nearest earlier heading of smaller level. */
  ghost predicate SectionRight(lines: seq<Line>, n: nat, s: Section, k: nat)
    requires n <= |lines| && k < |Headings(lines, n)|
  {
    var at := Headings(lines, n)[k];
    s == Section(SectionPath(k), lines[at].heading.value.text, k, PathOf(Parent(Levels(lines, n), k)), at + 1,
                 lines[at].heading.value.level)
  }

  ghost predicate SectionsRight(lines: seq<Line>, n: nat, sections: seq<Section>)
    requires n <= |lines|
  {
    && |sections| == |Headings(lines, n)|
    && forall k :: 0 <= k < |sections| ==> SectionRight(lines, n, sections[k], k)
  }

  /** The section current once the first `n` lines are read: that of the most recent heading. */
  function Current(lines: seq<Line>, n: nat): Option<string>
    requires n <= |lines|
  {
    PathOf(Last(Levels(lines, n)))
  }

  function KindOf(run: seq<Line>): Kind {
    if forall i :: 0 <= i < |run| && !run[i].blank ==> run[i].listItem then List
    else if forall i :: 0 <= i < |run| && !run[i].blank ==> '|' in run[i].text then Table
    else Paragraph
  }

  /** Nothing before line `at` can belong to a run of body lines that starts there. */
  predicate Breaks(lines: seq<Line>, at: nat)
    requires at <= |lines|
  {
    at == 0 || !IsBody(lines[at - 1])
  }

  /** Lines `from..to` are a maximal run of body lines, with the one blank line that ends it if there is one. */
  predicate IsRun(lines: seq<Line>, from: nat, to: nat) {
    && from < to <= |lines| && Breaks(lines, from)
    && IsBody(lines[from])
    && (forall i :: from <= i < to - 1 ==> IsBody(lines[i]))
    && if IsBody(lines[to - 1]) then to == |lines| || IsHeading(lines[to])
       else !IsHeading(lines[to - 1])
  }

  predicate BlockRight(lines: seq<Line>, b: Block, i: nat) {
    && b.ordinal == i && b.path == BlockPath(b.kind, i)
    && 1 <= b.start <= b.end <= |lines| && b.lines == lines[b.start - 1..b.end]
    && b.section == Current(lines, b.start)
    && if b.kind == HeadingBlock then b.start == b.end && IsHeading(lines[b.start - 1])
       else IsRun(lines, b.start - 1, b.end) && b.kind == KindOf(b.lines)
  }

  /** Line ranges increase and do not overlap. */
  ghost predicate Ordered(blocks: seq<Block>) {
    forall i, j :: 0 <= i < j < |blocks| ==> blocks[i].end < blocks[j].start
  }

  predicate Within(b: Block, line: nat) {
    b.start <= line <= b.end
  }

  /** Every heading and every non-blank line among the first `upto` is in some block. */
  ghost predicate Covered(lines: seq<Line>, blocks: seq<Block>, upto: nat)
    requires upto <= |lines|
  {
    forall x :: 0 <= x < upto && (IsHeading(lines[x]) || IsBody(lines[x])) ==> InSome(blocks, x + 1)
  }

  ghost predicate InSome(blocks: seq<Block>, line: nat) {
    exists i :: 0 <= i < |blocks| && Within(blocks[i], line)
  }

  ghost predicate BlocksRight(lines: seq<Line>, blocks: seq<Block>, upto: nat)
    requires upto <= |lines|
  {
    && (forall i :: 0 <= i < |blocks| ==> BlockRight(lines, blocks[i], i) && blocks[i].end <= upto)
    && Ordered(blocks) && Covered(lines, blocks, upto)
  }

  // ---------------------------------------------------------------- consequences

  /** Every non-blank line is in exactly one block. */
  lemma LineHasOneBlock(lines: seq<Line>, blocks: seq<Block>, x: nat)
    requires BlocksRight(lines, blocks, |lines|) && x < |lines| && !lines[x].blank
    ensures exists i :: 0 <= i < |blocks| && Within(blocks[i], x + 1)
                        && forall j :: 0 <= j < |blocks| && Within(blocks[j], x + 1) ==> j == i
  {
    assert InSome(blocks, x + 1);
    var i :| 0 <= i < |blocks| && Within(blocks[i], x + 1);
    assert forall j :: 0 <= j < |blocks| && Within(blocks[j], x + 1) ==> j == i;
  }

  /** The structural path of a block or section determines its position. */
  lemma PathsDistinct(lines: seq<Line>, sections: seq<Section>, blocks: seq<Block>, i: nat, j: nat)
    requires SectionsRight(lines, |lines|, sections) && BlocksRight(lines, blocks, |lines|)
    ensures i < |blocks| && j < |blocks| && blocks[i].path == blocks[j].path ==> i == j
    ensures i < |sections| && j < |sections| && sections[i].path == sections[j].path ==> i == j
    ensures i < |sections| && j < |blocks| ==> sections[i].path != blocks[j].path
  {
    hide Levels, Headings, IsRun, KindOf, Current, SectionPath, BlockPath, PathOf, Parent;
    if i < |blocks| && j < |blocks| && blocks[i].path == blocks[j].path {
      assert BlockRight(lines, blocks[i], i) && BlockRight(lines, blocks[j], j);
      BlockPathInjective(blocks[i].kind, i, blocks[j].kind, j);
    }
    if i < |sections| && j < |sections| && sections[i].path == sections[j].path {
      SectionPathInjective(i, j);
    }
    if i < |sections| && j < |blocks| {
      assert BlockRight(lines, blocks[j], j);
      SectionPathIsNoBlockPath(i, blocks[j].kind, j);
    }
  }

  predicate HasHeading(lines: seq<Line>, from: nat, to: nat)
    requires to <= |lines|
  {
    exists x :: from <= x < to && IsHeading(lines[x])
  }

  /** Every non-blank line among `from..to` is a list item. */
  predicate AllItems(lines: seq<Line>, from: nat, to: nat)
    requires to <= |lines|
  {
    forall x :: from <= x < to && !lines[x].blank ==> lines[x].listItem
  }

  /** Every non-blank line among `from..to` has a bar. */
  predicate AllBarred(lines: seq<Line>, from: nat, to: nat)
    requires to <= |lines|
  {
    forall x :: from <= x < to && !lines[x].blank ==> '|' in lines[x].text
  }

  /**
   Which blocks are lists and which are tables, told from the source lines alone: a heading line is a block of its own,
   a list has nothing but list items, a table has a bar in every line and some line that is no list item.
  */
  lemma BlockKinds(lines: seq<Line>, blocks: seq<Block>, i: nat)
    requires BlocksRight(lines, blocks, |lines|) && i < |blocks|
    ensures var b := blocks[i];
            && 1 <= b.start <= b.end <= |lines|
            && (b.kind == HeadingBlock <==> HasHeading(lines, b.start - 1, b.end))
            && (b.kind == HeadingBlock ==> b.start == b.end)
            && (b.kind == List <==>
                !HasHeading(lines, b.start - 1, b.end) && AllItems(lines, b.start - 1, b.end))
            && (b.kind == Table <==>
                !HasHeading(lines, b.start - 1, b.end) && !AllItems(lines, b.start - 1, b.end)
                && AllBarred(lines, b.start - 1, b.end))
  {
    hide BlockRight, AllItems, AllBarred, HasHeading, Ordered, Covered;
    KindOfBlock(lines, blocks[i], i);
  }

  lemma KindOfBlock(lines: seq<Line>, b: Block, i: nat)
    requires BlockRight(lines, b, i)
    ensures 1 <= b.start <= b.end <= |lines|
    ensures b.kind == HeadingBlock <==> HasHeading(lines, b.start - 1, b.end)
    ensures b.kind == HeadingBlock ==> b.start == b.end
    ensures b.kind == List <==> !HasHeading(lines, b.start - 1, b.end) && AllItems(lines, b.start - 1, b.end)
    ensures b.kind == Table <==> !HasHeading(lines, b.start - 1, b.end) && !AllItems(lines, b.start - 1, b.end)
                                 && AllBarred(lines, b.start - 1, b.end)
  {
    hide IsRun, AllItems, AllBarred, HasHeading, KindOf, BlockPath, Current;
    if b.kind == HeadingBlock {
      OneHeading(lines, b.start - 1);
    } else {
      KindOfLines(lines, b.start - 1, b.end);
      NoHeadingInRun(lines, b.start - 1, b.end);
    }
  }

  lemma OneHeading(lines: seq<Line>, at: nat)
    requires at < |lines| && IsHeading(lines[at])
    ensures HasHeading(lines, at, at + 1)
  {
  }

  lemma NoHeadingInRun(lines: seq<Line>, from: nat, to: nat)
    requires IsRun(lines, from, to)
    ensures !HasHeading(lines, from, to)
  {
  }

  lemma KindOfLines(lines: seq<Line>, from: nat, to: nat)
    requires from <= to <= |lines|
    ensures var kind := KindOf(lines[from..to]);
            && kind != HeadingBlock
            && (kind == List <==> AllItems(lines, from, to))
            && (kind == Table <==> !AllItems(lines, from, to) && AllBarred(lines, from, to))
  {
    var run := lines[from..to];
    assert forall x :: from <= x < to ==> run[x - from] == lines[x];
    assert forall j :: 0 <= j < |run| ==> run[j] == lines[j + from];
  }

  /** A block lies in the section of the nearest heading at or above its first line, or in none above all headings. */
  lemma BlockLiesInSection(lines: seq<Line>, sections: seq<Section>, blocks: seq<Block>, i: nat)
    requires SectionsRight(lines, |lines|, sections) && BlocksRight(lines, blocks, |lines|) && i < |blocks|
    ensures blocks[i].start <= |lines| && LiesIn(lines, sections, blocks[i].start, blocks[i].section)
  {
    assert BlockRight(lines, blocks[i], i);
    hide BlocksRight, IsRun, KindOf, BlockPath, Current, SectionsRight, LiesIn;
    InSection(lines, sections, blocks[i].start);
  }

  /** `section` is that of the nearest heading among the first `n` lines, or none if there is no heading. */
  ghost predicate LiesIn(lines: seq<Line>, sections: seq<Section>, n: nat, section: Option<string>)
    requires n <= |lines|
  {
    match section
    case None => !HasHeading(lines, 0, n)
    case Some(path) =>
      exists k :: 0 <= k < |sections| && sections[k].path == path && IsNearest(lines, sections[k], n)
  }

  predicate IsNearest(lines: seq<Line>, s: Section, n: nat)
    requires n <= |lines|
  {
    1 <= s.line <= n && IsHeading(lines[s.line - 1]) && lines[s.line - 1].heading.value.text == s.heading
    && !HasHeading(lines, s.line, n)
  }

  lemma InSection(lines: seq<Line>, sections: seq<Section>, n: nat)
    requires SectionsRight(lines, |lines|, sections) && n <= |lines|
    ensures LiesIn(lines, sections, n, Current(lines, n))
  {
    hide SectionPath, Headings, Levels, SectionsRight, HasHeading, SectionRight;
    LastIsNearest(lines, n);
    if Headings(lines, n) != [] {
      var k := |Headings(lines, n)| - 1;
      HeadingsPrefix(lines, n, |lines|);
      SectionPlace(lines, sections, k);
      assert Headings(lines, |lines|)[k] == Headings(lines, n)[k];
      assert IsNearest(lines, sections[k], n);
    }
  }

  lemma LastIsNearest(lines: seq<Line>, n: nat)
    requires n <= |lines|
    ensures var h := Headings(lines, n);
            && (h == [] ==> !HasHeading(lines, 0, n))
            && (h != [] ==> !HasHeading(lines, h[|h| - 1] + 1, n))
  {
    hide Headings;
    var h := Headings(lines, n);
    if h == [] {
      assert forall x :: 0 <= x < n && IsHeading(lines[x]) ==> x in h;
    } else {
      assert forall x :: h[|h| - 1] < x < n && IsHeading(lines[x]) ==> x in h;
    }
  }

  lemma SectionPlace(lines: seq<Line>, sections: seq<Section>, k: nat)
    requires SectionsRight(lines, |lines|, sections) && k < |Headings(lines, |lines|)|
    ensures var at := Headings(lines, |lines|)[k];
            && k < |sections| && sections[k].path == SectionPath(k) && sections[k].line == at + 1
            && sections[k].heading == lines[at].heading.value.text
  {
    hide Headings, Levels, Parent, SectionPath;
    assert SectionRight(lines, |lines|, sections[k], k);
  }

  lemma {:induction false} HeadingsPrefix(lines: seq<Line>, a: nat, b: nat)
    requires a <= b <= |lines|
    ensures Headings(lines, a) <= Headings(lines, b)
    decreases b
  {
    if a < b {
      HeadingsPrefix(lines, a, b - 1);
    }
  }

  lemma SectionPathInjective(i: nat, j: nat)
    requires SectionPath(i) == SectionPath(j)
    ensures i == j
  {
    assert SectionPath(i)[8..] == Numeral(i, 10) && SectionPath(j)[8..] == Numeral(j, 10);
    NumeralInjective(i, j, 10);
  }

  lemma SectionPathIsNoBlockPath(i: nat, k: Kind, j: nat)
    ensures SectionPath(i) != BlockPath(k, j)
  {
    assert SectionPath(i)[7] == ':' && SectionPath(i)[0] == 'h';
    if k == HeadingBlock {
      assert BlockPath(k, j)[7] == '_';
    } else {
      assert BlockPath(k, j)[0] == KindName(k)[0] != 'h';
    }
  }

  lemma BlockPathInjective(k: Kind, i: nat, l: Kind, j: nat)
    requires BlockPath(k, i) == BlockPath(l, j)
    ensures i == j
  {
    hide Numeral;
    var p, q := BlockPath(k, i), BlockPath(l, j);
    assert p[0] == KindName(k)[0] && q[0] == KindName(l)[0];
    assert k == l;
    var n := |KindName(k)| + 1;
    assert p[n..] == Numeral(i, 10) && q[n..] == Numeral(j, 10);
    NumeralInjective(i, j, 10);
  }

  // ---------------------------------------------------------------- how the outline grows

  lemma {:induction false} LevelsSkip(lines: seq<Line>, a: nat, b: nat)
    requires a <= b <= |lines| && forall i :: a <= i < b ==> !IsHeading(lines[i])
    ensures Levels(lines, b) == Levels(lines, a) && Headings(lines, b) == Headings(lines, a)
    decreases b
  {
    if a < b {
      LevelsSkip(lines, a, b - 1);
    }
  }

  lemma SectionsKeep(lines: seq<Line>, n: nat, sections: seq<Section>)
    requires n < |lines| && !IsHeading(lines[n]) && SectionsRight(lines, n, sections)
    ensures SectionsRight(lines, n + 1, sections)
  {
    LevelsSkip(lines, n, n + 1);
    assert forall k :: 0 <= k < |sections| ==> SectionRight(lines, n, sections[k], k);
  }

  lemma SectionKept(lines: seq<Line>, n: nat, s: Section, k: nat)
    requires n < |lines| && IsHeading(lines[n]) && k < |Headings(lines, n)| && SectionRight(lines, n, s, k)
    ensures SectionRight(lines, n + 1, s, k)
  {
    ParentStable(Levels(lines, n), lines[n].heading.value.level, k);
  }

  lemma SectionNew(lines: seq<Line>, n: nat, s: Section, k: nat)
    requires n < |lines| && IsHeading(lines[n]) && k == |Headings(lines, n)|
    requires var level := lines[n].heading.value.level; var levels := Levels(lines, n);
             s == Section(SectionPath(k), lines[n].heading.value.text, k, PathOf(Nearest(levels, k, level)), n + 1,
                          level)
    ensures SectionRight(lines, n + 1, s, k)
  {
    hide SectionPath;
    ParentOfNew(Levels(lines, n), lines[n].heading.value.level);
  }

  lemma SectionsGrow(lines: seq<Line>, n: nat, sections: seq<Section>, s: Section)
    requires n < |lines| && IsHeading(lines[n]) && SectionsRight(lines, n, sections)
    requires var level := lines[n].heading.value.level; var levels := Levels(lines, n);
             s == Section(SectionPath(|sections|), lines[n].heading.value.text, |sections|,
                          PathOf(Nearest(levels, |levels|, level)), n + 1, level)
    ensures SectionsRight(lines, n + 1, sections + [s])
  {
    hide SectionPath, Nearest, Parent, SectionRight, Levels, Headings;
    LevelsGrow(lines, n);
    SectionNew(lines, n, s, |sections|);
    forall k | 0 <= k < |sections| ensures SectionRight(lines, n + 1, sections[k], k) {
      SectionKept(lines, n, sections[k], k);
    }
  }

  lemma BlocksSkip(lines: seq<Line>, blocks: seq<Block>, n: nat)
    requires n < |lines| && !IsHeading(lines[n]) && lines[n].blank && BlocksRight(lines, blocks, n)
    ensures BlocksRight(lines, blocks, n + 1)
  {
    hide BlockRight;
  }

  lemma BlocksGrow(lines: seq<Line>, blocks: seq<Block>, b: Block, upto: nat, to: nat)
    requires upto < to <= |lines| && BlocksRight(lines, blocks, upto)
    requires BlockRight(lines, b, |blocks|) && b.start == upto + 1 && b.end == to
    ensures BlocksRight(lines, blocks + [b], to)
  {
    hide BlockRight;
    var longer := blocks + [b];
    forall x | 0 <= x < to && (IsHeading(lines[x]) || IsBody(lines[x])) ensures InSome(longer, x + 1) {
      if x < upto {
        assert InSome(blocks, x + 1);
        var i :| 0 <= i < |blocks| && Within(blocks[i], x + 1);
        assert Within(longer[i], x + 1);
      } else {
        assert Within(longer[|blocks|], x + 1);
      }
    }
  }

  // ---------------------------------------------------------------- the compiler

  /** Lines `from..to` are body lines, and nothing before them can belong to their run. */
  predicate Gathered(lines: seq<Line>, from: nat, to: nat) {
    from < to <= |lines| && Breaks(lines, from) && forall i :: from <= i < to ==> IsBody(lines[i])
  }

  /** The blocks so far, and the body lines read since the last of them. */
  ghost predicate Reading(lines: seq<Line>, blocks: seq<Block>, pending: seq<Line>, start: nat, n: nat) {
    && n <= |lines|
    && if pending == [] then BlocksRight(lines, blocks, n) && Breaks(lines, n)
       else 1 <= start <= n && pending == lines[start - 1..n] && BlocksRight(lines, blocks, start - 1)
            && Gathered(lines, start - 1, n)
  }

  /** The pending lines are a whole run, a single blank line, or nothing. */
  ghost predicate Flushable(lines: seq<Line>, blocks: seq<Block>, pending: seq<Line>, start: nat, to: nat) {
    && to <= |lines|
    && if pending == [] then BlocksRight(lines, blocks, to)
       else
         && 1 <= start <= to && pending == lines[start - 1..to] && BlocksRight(lines, blocks, start - 1)
         && (IsRun(lines, start - 1, to) || (start == to && lines[start - 1].blank && !IsHeading(lines[start - 1])))
  }

  lemma ReadyToFlush(lines: seq<Line>, blocks: seq<Block>, pending: seq<Line>, start: nat, n: nat)
    requires Reading(lines, blocks, pending, start, n) && (n == |lines| || IsHeading(lines[n]))
    ensures Flushable(lines, blocks, pending, start, n)
  {
    hide BlocksRight;
  }

  /** One more line that is not a heading: a body line is kept for later, a blank one completes what is pending. */
  lemma OneMoreLine(lines: seq<Line>, blocks: seq<Block>, pending: seq<Line>, start: nat, n: nat)
    requires Reading(lines, blocks, pending, start, n) && n < |lines| && !IsHeading(lines[n])
    ensures var from := if pending == [] then n + 1 else start; var more := pending + [lines[n]];
            if lines[n].blank then Flushable(lines, blocks, more, from, n + 1)
            else Reading(lines, blocks, more, from, n + 1)
  {
    hide BlocksRight;
    OneElement(lines, n);
    if pending != [] {
      assert pending + [lines[n]] == lines[start - 1..n + 1];
    }
  }

  /** Once a heading or a blank line has been dealt with, nothing is pending. */
  lemma NothingPending(lines: seq<Line>, blocks: seq<Block>, start: nat, n: nat)
    requires n < |lines| && (IsHeading(lines[n]) || lines[n].blank) && BlocksRight(lines, blocks, n + 1)
    ensures Reading(lines, blocks, [], start, n + 1)
  {
    hide BlocksRight;
  }

  /** Closes the pending run of lines `from..to`, if it holds anything, and gives it the section on top of the stack. */
  method Flush(blocks: seq<Block>, pending: seq<Line>, start: nat, stack: seq<Open>, ghost lines: seq<Line>,
               ghost to: nat)
    returns (r: seq<Block>)
    requires to <= |lines| && Holds(Levels(lines, to), stack) && Flushable(lines, blocks, pending, start, to)
    ensures BlocksRight(lines, r, to)
  {
    hide BlocksRight, Holds, Levels, BlockPath, KindOf, BlockRight;
    if pending == [] {
      return blocks;
    }
    if forall i :: 0 <= i < |pending| ==> pending[i].blank {
      assert pending[0] == lines[start - 1];
      BlocksSkip(lines, blocks, to - 1);
      return blocks;
    }
    if start == to {
      assert forall i :: 0 <= i < |pending| ==> pending[i] == lines[start - 1];
    }
    TopIsLast(Levels(lines, to), stack);
    var kind := KindOf(pending);
    var b := Block(BlockPath(kind, |blocks|), kind, |blocks|, pending, Top(stack), start, start + |pending| - 1);
    RunRight(lines, b, to);
    BlocksGrow(lines, blocks, b, start - 1, to);
    r := blocks + [b];
  }

  lemma RunRight(lines: seq<Line>, b: Block, to: nat)
    requires 1 <= b.start <= to <= |lines| && IsRun(lines, b.start - 1, to) && b.end == to
    requires b.lines == lines[b.start - 1..to] && b.kind == KindOf(b.lines) && b.path == BlockPath(b.kind, b.ordinal)
    requires b.section == Current(lines, to)
    ensures BlockRight(lines, b, b.ordinal)
  {
    hide Levels, Headings, BlockPath, PathOf;
    KindOfRun(b.lines);
    LevelsSkip(lines, b.start, to);
  }

  lemma HeadingRight(lines: seq<Line>, n: nat, b: Block)
    requires n < |lines| && IsHeading(lines[n])
    requires b == Block(BlockPath(HeadingBlock, b.ordinal), HeadingBlock, b.ordinal, [lines[n]],
                        Some(SectionPath(|Levels(lines, n)|)), n + 1, n + 1)
    ensures BlockRight(lines, b, b.ordinal)
  {
    hide SectionPath, Levels, Headings, BlockPath, Current, KindOf, IsRun;
    LevelsGrow(lines, n);
    OneElement(lines, n);
  }

  lemma OneElement<T>(s: seq<T>, n: nat)
    requires n < |s|
    ensures s[n..n + 1] == [s[n]]
  {
  }

  lemma KindOfRun(run: seq<Line>)
    ensures KindOf(run) != HeadingBlock
  {
  }

  /** The sections so far, and on the stack the headings that are still open. */
  ghost predicate Outlined(lines: seq<Line>, n: nat, sections: seq<Section>, stack: seq<Open>) {
    n <= |lines| && SectionsRight(lines, n, sections) && Holds(Levels(lines, n), stack)
  }

  /** A heading line becomes a section under what is left on the stack, and a block of its own in that section. */
  lemma HeadingStep(lines: seq<Line>, n: nat, sections: seq<Section>, blocks: seq<Block>, kept: seq<Open>, start: nat)
    requires n < |lines| && IsHeading(lines[n]) && SectionsRight(lines, n, sections) && BlocksRight(lines, blocks, n)
    requires var level := lines[n].heading.value.level; var levels := Levels(lines, n);
             && Top(kept) == PathOf(Nearest(levels, |levels|, level))
             && Holds(levels + [level], kept + [Open(level, SectionPath(|levels|))])
    ensures var heading := lines[n].heading.value; var path := SectionPath(|sections|);
            var s := Section(path, heading.text, |sections|, Top(kept), n + 1, heading.level);
            var b := Block(BlockPath(HeadingBlock, |blocks|), HeadingBlock, |blocks|, [lines[n]], Some(path), n + 1,
                           n + 1);
            && Outlined(lines, n + 1, sections + [s], kept + [Open(heading.level, path)])
            && Reading(lines, blocks + [b], [], start, n + 1)
  {
    hide BlocksRight, SectionsRight, Holds, Levels, BlockPath, SectionPath, Headings, BlockRight, Reading, Current,
        Nearest;
    var heading, path := lines[n].heading.value, SectionPath(|sections|);
    SectionCount(lines, n, sections);
    SectionsGrow(lines, n, sections, Section(path, heading.text, |sections|, Top(kept), n + 1, heading.level));
    LevelsGrow(lines, n);
    var b := Block(BlockPath(HeadingBlock, |blocks|), HeadingBlock, |blocks|, [lines[n]], Some(path), n + 1, n + 1);
    HeadingRight(lines, n, b);
    BlocksGrow(lines, blocks, b, n, n + 1);
    NothingPending(lines, blocks + [b], start, n);
  }

  /** Any other line leaves sections and stack as they are. */
  lemma OutlineKeeps(lines: seq<Line>, n: nat, sections: seq<Section>, stack: seq<Open>)
    requires Outlined(lines, n, sections, stack) && n < |lines| && !IsHeading(lines[n])
    ensures Outlined(lines, n + 1, sections, stack)
  {
    hide SectionsRight, Holds, Levels, Headings;
    SectionsKeep(lines, n, sections);
    LevelsSkip(lines, n, n + 1);
  }

  method Compile(lines: seq<Line>) returns (sections: seq<Section>, blocks: seq<Block>)
    ensures SectionsRight(lines, |lines|, sections)
    ensures BlocksRight(lines, blocks, |lines|)
  {
    hide BlocksRight, SectionsRight, Holds, Levels, BlockPath, SectionPath, Reading, Flushable, Nearest;
    sections, blocks := [], [];
    var stack: seq<Open> := [];
    var pending: seq<Line>, start := [], 0;
    NothingRead(lines);
    for n := 0 to |lines|
      invariant Outlined(lines, n, sections, stack) && Reading(lines, blocks, pending, start, n)
    {
      var line := lines[n];
      if IsHeading(line) {
        ReadyToFlush(lines, blocks, pending, start, n);
        blocks := Flush(blocks, pending, start, stack, lines, n);
        pending := [];
        var level := line.heading.value.level;
        stack := CloseTo(stack, level, Levels(lines, n));
        HeadingStep(lines, n, sections, blocks, stack, start);
        var path := SectionPath(|sections|);
        sections := sections + [Section(path, line.heading.value.text, |sections|, Top(stack), n + 1, level)];
        blocks := blocks
          + [Block(BlockPath(HeadingBlock, |blocks|), HeadingBlock, |blocks|, [line], Some(path), n + 1, n + 1)];
        stack := stack + [Open(level, path)];
      } else {
        OutlineKeeps(lines, n, sections, stack);
        OneMoreLine(lines, blocks, pending, start, n);
        if pending == [] {
          start := n + 1;
        }
        pending := pending + [line];
        if line.blank {
          blocks := Flush(blocks, pending, start, stack, lines, n + 1);
          pending := [];
          NothingPending(lines, blocks, start, n);
        }
      }
    }
    ReadyToFlush(lines, blocks, pending, start, |lines|);
    blocks := Flush(blocks, pending, start, stack, lines, |lines|);
  }

  lemma NothingRead(lines: seq<Line>)
    ensures Outlined(lines, 0, [], []) && Reading(lines, [], [], 0, 0)
  {
    HoldsBy([], [], []);
  }

  lemma SectionCount(lines: seq<Line>, n: nat, sections: seq<Section>)
    requires n <= |lines| && SectionsRight(lines, n, sections)
    ensures |sections| == |Levels(lines, n)|
  {
  }

  lemma LevelsGrow(lines: seq<Line>, n: nat)
    requires n < |lines| && IsHeading(lines[n])
    ensures Levels(lines, n + 1) == Levels(lines, n) + [lines[n].heading.value.level]
    ensures Current(lines, n + 1) == Some(SectionPath(|Levels(lines, n)|))
  {
    hide SectionPath;
  }
}
