/** The DOCX outline compiler: the same heading stack over the children of the document body. */
module Docx {
  import opened Wrappers
  import opened Numerals
  import opened HeadingTree

  datatype Child =
    | Par(text: string, level: Option<nat>, listItem: bool, links: seq<string>, images: seq<string>)
    | Tbl(rows: seq<seq<string>>)
    | Other

  datatype Kind = HeadingBlock | ListItem | ImageReference | Paragraph | Table

  datatype Section = Section(path: string, heading: string, ordinal: nat, parent: Option<string>, paragraph: nat,
                             level: nat)

  datatype Block = Block(path: string, kind: Kind, ordinal: nat, content: Child, section: Option<string>)

  function KindName(k: Kind): string {
    match k
    case HeadingBlock => "heading"
    case ListItem => "list_item"
    case ImageReference => "image_reference"
    case Paragraph => "paragraph"
    case Table => "table"
  }

  function BlockPath(k: Kind, number: nat): string {
    KindName(k) + ":" + Numeral(number, 10)
  }

  // ---------------------------------------------------------------- what the outline of given children is

  predicate IsHeading(c: Child) {
    c.Par? && c.level.Some?
  }

  predicate MakesBlock(c: Child) {
    c.Tbl? || (c.Par? && (c.text != "" || c.images != []))
  }

  function KindOf(c: Child): Kind {
    if c.Tbl? then Table
    else if IsHeading(c) then HeadingBlock
    else if c.Par? && c.listItem then ListItem
    else if c.Par? && c.images != [] && c.text == "" then ImageReference
    else Paragraph
  }

  function Headings(children: seq<Child>, n: nat): (h: seq<nat>)
    requires n <= |children|
    ensures forall i :: 0 <= i < |h| ==> h[i] < n && IsHeading(children[h[i]])
    ensures forall i, j :: 0 <= i < j < |h| ==> h[i] < h[j]
    ensures forall x :: 0 <= x < n && IsHeading(children[x]) ==> x in h
  {
    if n == 0 then []
    else if IsHeading(children[n - 1]) then Headings(children, n - 1) + [n - 1]
    else Headings(children, n - 1)
  }

  function Levels(children: seq<Child>, n: nat): (levels: seq<nat>)
    requires n <= |children|
    ensures |levels| == |Headings(children, n)|
    ensures forall i :: 0 <= i < |levels| ==> levels[i] == children[Headings(children, n)[i]].level.value
  {
    if n == 0 then []
    else if IsHeading(children[n - 1]) then Levels(children, n - 1) + [children[n - 1].level.value]
    else Levels(children, n - 1)
  }

  /** The indices of the children that become blocks. */
  function Kept(children: seq<Child>, n: nat): (k: seq<nat>)
    requires n <= |children|
    ensures forall i :: 0 <= i < |k| ==> k[i] < n && MakesBlock(children[k[i]])
    ensures forall i, j :: 0 <= i < j < |k| ==> k[i] < k[j]
    ensures forall x :: 0 <= x < n && MakesBlock(children[x]) ==> x in k
  {
    if n == 0 then []
    else if MakesBlock(children[n - 1]) then Kept(children, n - 1) + [n - 1]
    else Kept(children, n - 1)
  }

  function Tables(children: seq<Child>, n: nat): nat
    requires n <= |children|
  {
    if n == 0 then 0 else Tables(children, n - 1) + if children[n - 1].Tbl? then 1 else 0
  }

  function SectionAt(children: seq<Child>, n: nat, k: nat): Section
    requires n <= |children| && k < |Headings(children, n)|
  {
    var at := Headings(children, n)[k];
    Section(SectionPath(k), children[at].text, k, PathOf(Parent(Levels(children, n), k)), |Kept(children, at)|,
            children[at].level.value)
  }

  /** The block of child `at`: numbered among the blocks, or among the tables, and in the most recent section. */
  function BlockAt(children: seq<Child>, at: nat, i: nat): Block
    requires at < |children|
  {
    var kind := KindOf(children[at]);
    Block(BlockPath(kind, if kind == Table then Tables(children, at) else i), kind, i, children[at],
          PathOf(Last(Levels(children, at + 1))))
  }

  ghost predicate SectionsRight(children: seq<Child>, n: nat, sections: seq<Section>)
    requires n <= |children|
  {
    && |sections| == |Headings(children, n)|
    && forall k :: 0 <= k < |sections| ==> sections[k] == SectionAt(children, n, k)
  }

  ghost predicate BlocksRight(children: seq<Child>, n: nat, blocks: seq<Block>)
    requires n <= |children|
  {
    && |blocks| == |Kept(children, n)|
    && forall i :: 0 <= i < |blocks| ==> blocks[i] == BlockAt(children, Kept(children, n)[i], i)
  }

  // ---------------------------------------------------------------- consequences

  lemma {:induction false} TablesGrow(children: seq<Child>, a: nat, b: nat)
    requires a < b <= |children| && children[a].Tbl?
    ensures Tables(children, a) < Tables(children, b)
    decreases b
  {
    if a + 1 < b {
      TablesGrow(children, a, b - 1);
    }
  }

  /** No two blocks share a structural path, although tables are numbered apart from the other blocks. */
  lemma PathsDistinct(children: seq<Child>, blocks: seq<Block>, i: nat, j: nat)
    requires BlocksRight(children, |children|, blocks) && i < j < |blocks|
    ensures blocks[i].path != blocks[j].path
  {
    hide Numeral;
    var kept := Kept(children, |children|);
    var a, b := blocks[i], blocks[j];
    var m := if a.kind == Table then Tables(children, kept[i]) else i;
    var n := if b.kind == Table then Tables(children, kept[j]) else j;
    if a.path == b.path {
      BlockPathInjective(a.kind, m, b.kind, n);
      if a.kind == Table {
        TablesGrow(children, kept[i], kept[j]);
      }
    }
  }

  /** What kind of block a child of the body becomes, and the section it lies in: that of the nearest heading above. */
  lemma BlockKinds(children: seq<Child>, sections: seq<Section>, blocks: seq<Block>, i: nat)
    requires SectionsRight(children, |children|, sections) && BlocksRight(children, |children|, blocks) && i < |blocks|
    ensures var b := blocks[i]; var c := b.content;
            && (b.kind == Table <==> c.Tbl?)
            && (b.kind == HeadingBlock <==> c.Par? && c.level.Some?)
            && (b.kind == ListItem <==> c.Par? && c.level == None && c.listItem)
            && (b.kind == ImageReference <==>
                c.Par? && c.level == None && !c.listItem && c.text == "" && c.images != [])
            && (b.kind == Paragraph <==> c.Par? && c.level == None && !c.listItem && c.text != "")
            && exists at :: 0 <= at < |children| && children[at] == c && LiesIn(children, sections, at + 1, b.section)
  {
    hide SectionAt, BlockPath;
    var at := Kept(children, |children|)[i];
    assert blocks[i] == BlockAt(children, at, i) && MakesBlock(children[at]);
    InSection(children, sections, at + 1);
  }

  predicate HasHeading(children: seq<Child>, from: nat, to: nat)
    requires to <= |children|
  {
    exists x :: from <= x < to && IsHeading(children[x])
  }

  /** `section` is that of the nearest heading among the first `n` children, or none if there is no heading. */
  ghost predicate LiesIn(children: seq<Child>, sections: seq<Section>, n: nat, section: Option<string>)
    requires n <= |children|
  {
    match section
    case None => !HasHeading(children, 0, n)
    case Some(path) =>
      exists k, h :: 0 <= k < |sections| && 0 <= h < n && sections[k].path == path
                     && IsNearest(children, sections[k], h, n)
  }

  predicate IsNearest(children: seq<Child>, s: Section, h: nat, n: nat)
    requires h < n <= |children|
  {
    IsHeading(children[h]) && s.heading == children[h].text && !HasHeading(children, h + 1, n)
  }

  lemma InSection(children: seq<Child>, sections: seq<Section>, n: nat)
    requires SectionsRight(children, |children|, sections) && n <= |children|
    ensures LiesIn(children, sections, n, PathOf(Last(Levels(children, n))))
  {
    hide SectionPath, Headings, Levels, SectionsRight, HasHeading, SectionAt;
    LastIsNearest(children, n);
    if Headings(children, n) != [] {
      var k := |Headings(children, n)| - 1;
      HeadingsPrefix(children, n, |children|);
      SectionPlace(children, sections, k);
      assert Headings(children, |children|)[k] == Headings(children, n)[k];
      assert IsNearest(children, sections[k], Headings(children, n)[k], n);
    }
  }

  lemma LastIsNearest(children: seq<Child>, n: nat)
    requires n <= |children|
    ensures var h := Headings(children, n);
            && (h == [] ==> !HasHeading(children, 0, n))
            && (h != [] ==> !HasHeading(children, h[|h| - 1] + 1, n))
  {
    hide Headings;
    var h := Headings(children, n);
    if h == [] {
      assert forall x :: 0 <= x < n && IsHeading(children[x]) ==> x in h;
    } else {
      assert forall x :: h[|h| - 1] < x < n && IsHeading(children[x]) ==> x in h;
    }
  }

  lemma SectionPlace(children: seq<Child>, sections: seq<Section>, k: nat)
    requires SectionsRight(children, |children|, sections) && k < |Headings(children, |children|)|
    ensures && k < |sections| && sections[k].path == SectionPath(k)
            && sections[k].heading == children[Headings(children, |children|)[k]].text
  {
    hide Headings, Levels, Parent, SectionPath, Kept;
    assert sections[k] == SectionAt(children, |children|, k);
  }

  lemma {:induction false} HeadingsPrefix(children: seq<Child>, a: nat, b: nat)
    requires a <= b <= |children|
    ensures Headings(children, a) <= Headings(children, b)
    decreases b
  {
    if a < b {
      HeadingsPrefix(children, a, b - 1);
    }
  }

  lemma BlockPathInjective(k: Kind, i: nat, l: Kind, j: nat)
    requires BlockPath(k, i) == BlockPath(l, j)
    ensures k == l && i == j
  {
    hide Numeral;
    var p, q := BlockPath(k, i), BlockPath(l, j);
    assert p[0] == KindName(k)[0] && q[0] == KindName(l)[0];
    assert k == l;
    var n := |KindName(k)| + 1;
    assert p[n..] == Numeral(i, 10) && q[n..] == Numeral(j, 10);
    NumeralInjective(i, j, 10);
  }

  // ---------------------------------------------------------------- how the outline grows

  lemma SectionsKeep(children: seq<Child>, n: nat, sections: seq<Section>)
    requires n < |children| && !IsHeading(children[n]) && SectionsRight(children, n, sections)
    ensures SectionsRight(children, n + 1, sections) && Levels(children, n + 1) == Levels(children, n)
  {
    hide SectionPath, Kept, PathOf, Parent;
    assert Headings(children, n + 1) == Headings(children, n);
  }

  lemma SectionKept(children: seq<Child>, n: nat, k: nat)
    requires n < |children| && IsHeading(children[n]) && k < |Headings(children, n)|
    ensures SectionAt(children, n + 1, k) == SectionAt(children, n, k)
  {
    hide SectionPath, Kept, PathOf;
    ParentStable(Levels(children, n), children[n].level.value, k);
  }

  lemma SectionNew(children: seq<Child>, n: nat, k: nat)
    requires n < |children| && IsHeading(children[n]) && k == |Headings(children, n)|
    ensures var level := children[n].level.value;
            SectionAt(children, n + 1, k)
            == Section(SectionPath(k), children[n].text, k, PathOf(Nearest(Levels(children, n), k, level)),
                       |Kept(children, n)|, level)
  {
    hide SectionPath, Kept, PathOf;
    ParentOfNew(Levels(children, n), children[n].level.value);
  }

  lemma LevelsGrow(children: seq<Child>, n: nat)
    requires n < |children| && IsHeading(children[n])
    ensures Levels(children, n + 1) == Levels(children, n) + [children[n].level.value]
    ensures |Headings(children, n + 1)| == |Headings(children, n)| + 1
    ensures PathOf(Last(Levels(children, n + 1))) == Some(SectionPath(|Headings(children, n)|))
  {
    hide SectionPath;
  }

  lemma SectionsGrow(children: seq<Child>, n: nat, sections: seq<Section>)
    requires n < |children| && IsHeading(children[n]) && SectionsRight(children, n, sections)
    ensures SectionsRight(children, n + 1, sections + [SectionAt(children, n + 1, |sections|)])
    ensures Levels(children, n + 1) == Levels(children, n) + [children[n].level.value]
    ensures PathOf(Last(Levels(children, n + 1))) == Some(SectionPath(|sections|))
              && |sections| == |Headings(children, n)|
  {
    hide SectionAt, SectionPath, Levels, Headings, PathOf;
    LevelsGrow(children, n);
    forall k | 0 <= k < |sections| ensures sections[k] == SectionAt(children, n + 1, k) {
      SectionKept(children, n, k);
    }
  }

  lemma BlocksStep(children: seq<Child>, n: nat, blocks: seq<Block>)
    requires n < |children| && BlocksRight(children, n, blocks)
    ensures BlocksRight(children, n + 1,
                        if MakesBlock(children[n]) then blocks + [BlockAt(children, n, |blocks|)] else blocks)
  {
    hide BlockAt;
  }

  // ---------------------------------------------------------------- the compiler

  method Compile(children: seq<Child>) returns (sections: seq<Section>, blocks: seq<Block>)
    ensures SectionsRight(children, |children|, sections)
    ensures BlocksRight(children, |children|, blocks)
  {
    hide SectionAt, BlockAt, Last, PathOf, Holds, Levels, BlockPath, SectionPath, Headings, Kept, Nearest, BlocksRight,
        SectionsRight;
    sections, blocks := [], [];
    var stack: seq<Open>, tableNumber: nat := [], 0;
    NothingRead(children);
    for n := 0 to |children|
      invariant SectionsRight(children, n, sections) && BlocksRight(children, n, blocks)
      invariant Holds(Levels(children, n), stack) && tableNumber == Tables(children, n)
    {
      var child := children[n];
      BlocksStep(children, n, blocks);
      BlockCount(children, n, blocks);
      if child.Par? {
        var section: Option<string>, kind: Kind;
        if child.level.Some? {
          var level := child.level.value;
          stack := CloseTo(stack, level, Levels(children, n));
          var path := SectionPath(|sections|);
          SectionsGrow(children, n, sections);
          SectionNew(children, n, |sections|);
          sections := sections + [Section(path, child.text, |sections|, Top(stack), |blocks|, level)];
          stack := stack + [Open(level, path)];
          section, kind := Some(path), HeadingBlock;
        } else {
          SectionsKeep(children, n, sections);
          TopIsLast(Levels(children, n), stack);
          section := Top(stack);
          kind := if child.listItem then ListItem
                  else if child.images != [] && child.text == "" then ImageReference else Paragraph;
        }
        if child.text != "" || child.images != [] {
          ParagraphBlock(children, n, |blocks|, kind, section);
          blocks := blocks + [Block(BlockPath(kind, |blocks|), kind, |blocks|, child, section)];
        }
      } else if child.Tbl? {
        SectionsKeep(children, n, sections);
        TopIsLast(Levels(children, n), stack);
        TableBlock(children, n, |blocks|, Top(stack));
        blocks := blocks + [Block(BlockPath(Table, tableNumber), Table, |blocks|, child, Top(stack))];
        tableNumber := tableNumber + 1;
      } else {
        SectionsKeep(children, n, sections);
      }
    }
  }

  lemma ParagraphBlock(children: seq<Child>, n: nat, i: nat, kind: Kind, section: Option<string>)
    requires n < |children| && children[n].Par? && kind == KindOf(children[n])
    requires section == PathOf(Last(Levels(children, n + 1)))
    ensures BlockAt(children, n, i) == Block(BlockPath(kind, i), kind, i, children[n], section)
  {
  }

  lemma TableBlock(children: seq<Child>, n: nat, i: nat, section: Option<string>)
    requires n < |children| && children[n].Tbl? && section == PathOf(Last(Levels(children, n + 1)))
    ensures BlockAt(children, n, i) == Block(BlockPath(Table, Tables(children, n)), Table, i, children[n], section)
  {
  }

  lemma BlockCount(children: seq<Child>, n: nat, blocks: seq<Block>)
    requires n <= |children| && BlocksRight(children, n, blocks)
    ensures |blocks| == |Kept(children, n)|
  {
  }

  lemma NothingRead(children: seq<Child>)
    ensures SectionsRight(children, 0, []) && BlocksRight(children, 0, []) && Levels(children, 0) == [] && Holds([], [])
  {
    HoldsBy([], [], []);
  }
}
