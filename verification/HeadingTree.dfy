/** The section tree a list of heading levels describes, and the stack that finds it in one pass. */
module HeadingTree {
  import opened Wrappers
  import opened Numerals

  /** The nearest of the first `k` headings whose level is strictly smaller than `level`. */
  function Nearest(levels: seq<nat>, k: nat, level: nat): (p: Option<nat>)
    requires k <= |levels|
    ensures p.Some? ==> p.value < k && levels[p.value] < level
    ensures forall j :: (if p.Some? then p.value + 1 else 0) <= j < k ==> levels[j] >= level
  {
    if k == 0 then None
    else if levels[k - 1] < level then Some(k - 1)
    else Nearest(levels, k - 1, level)
  }

  function Parent(levels: seq<nat>, k: nat): (p: Option<nat>)
    requires k < |levels|
    ensures p.Some? ==> p.value < k && levels[p.value] < levels[k]
  {
    Nearest(levels, k, levels[k])
  }

  /** Only one heading can be the nearest one. */
  lemma NearestIsUnique(levels: seq<nat>, k: nat, level: nat, p: Option<nat>)
    requires k <= |levels|
    requires p.Some? ==> p.value < k && levels[p.value] < level
    requires forall j :: (if p.Some? then p.value + 1 else 0) <= j < k ==> levels[j] >= level
    ensures Nearest(levels, k, level) == p
  {
  }

  predicate Ancestor(levels: seq<nat>, a: nat, k: nat)
    requires k < |levels|
  {
    var p := Parent(levels, k);
    p.Some? && (p.value == a || Ancestor(levels, a, p.value))
  }

  /**
   The parents form a forest: the descendants of a heading are exactly the headings after it up to the next one at its
   own level or above, so subtrees are contiguous and levels strictly increase down every path.
  */
  lemma {:induction false} SubtreeIsContiguous(levels: seq<nat>, a: nat, k: nat)
    requires k < |levels|
    ensures Ancestor(levels, a, k) <==> a < k && forall j :: a < j <= k ==> levels[a] < levels[j]
    decreases k
  {
    var p := Parent(levels, k);
    if p.Some? {
      SubtreeIsContiguous(levels, a, p.value);
      if a < p.value {
        assert forall j :: p.value < j <= k ==> levels[j] >= levels[k] > levels[p.value];
      }
    }
  }

  function Depth(levels: seq<nat>, k: nat): nat
    requires k < |levels|
  {
    match Parent(levels, k)
    case None => 0
    case Some(p) => Depth(levels, p) + 1
  }

  /** A heading is never deeper than its level allows. */
  lemma {:induction false} DepthBelowLevel(levels: seq<nat>, k: nat)
    requires k < |levels| && forall j :: 0 <= j <= k ==> levels[j] >= 1
    ensures Depth(levels, k) < levels[k]
    decreases k
  {
    var p := Parent(levels, k);
    if p.Some? {
      DepthBelowLevel(levels, p.value);
    }
  }

  // ---------------------------------------------------------------- the stack

  datatype Open = Open(level: nat, path: string)

  function SectionPath(k: nat): string {
    "heading:" + Numeral(k, 10)
  }

  function PathOf(p: Option<nat>): Option<string> {
    if p.None? then None else Some(SectionPath(p.value))
  }

  function Top(stack: seq<Open>): Option<string> {
    if stack == [] then None else Some(stack[|stack| - 1].path)
  }

  /** `chain` leads from a root to its last heading, each the parent of the next. */
  ghost predicate Chain(levels: seq<nat>, chain: seq<nat>) {
    && (forall i :: 0 <= i < |chain| ==> chain[i] < |levels|)
    && (chain != [] ==> Parent(levels, chain[0]) == None)
    && forall i :: 1 <= i < |chain| ==> Parent(levels, chain[i]) == Some(chain[i - 1])
  }

  ghost predicate Shows(levels: seq<nat>, stack: seq<Open>, chain: seq<nat>) {
    && |stack| == |chain|
    && forall i :: 0 <= i < |chain| ==>
         chain[i] < |levels| && stack[i] == Open(levels[chain[i]], SectionPath(chain[i]))
  }

  /** The stack holds the last heading read and its ancestors. */
  ghost predicate Holds(levels: seq<nat>, stack: seq<Open>) {
    exists chain: seq<nat> ::
      && Chain(levels, chain) && Shows(levels, stack, chain)
      && if levels == [] then chain == [] else chain != [] && chain[|chain| - 1] == |levels| - 1
  }

  function Last(levels: seq<nat>): Option<nat> {
    if levels == [] then None else Some(|levels| - 1)
  }

  lemma TopIsLast(levels: seq<nat>, stack: seq<Open>)
    requires Holds(levels, stack)
    ensures Top(stack) == PathOf(Last(levels))
  {
    hide Chain, SectionPath;
  }

  lemma ParentStable(levels: seq<nat>, level: nat, k: nat)
    requires k < |levels|
    ensures Parent(levels + [level], k) == Parent(levels, k)
  {
    NearestIsUnique(levels + [level], k, levels[k], Parent(levels, k));
  }

  lemma ParentOfNew(levels: seq<nat>, level: nat)
    ensures Parent(levels + [level], |levels|) == Nearest(levels, |levels|, level)
  {
    NearestIsUnique(levels + [level], |levels|, level, Nearest(levels, |levels|, level));
  }

  lemma ChainGrows(levels: seq<nat>, level: nat, chain: seq<nat>)
    requires Chain(levels, chain)
    requires Nearest(levels, |levels|, level) == if chain == [] then None else Some(chain[|chain| - 1])
    ensures Chain(levels + [level], chain + [|levels|])
  {
    var longer, extended := levels + [level], chain + [|levels|];
    forall i | 0 <= i < |extended|
      ensures Parent(longer, extended[i]) == if i == 0 then None else Some(extended[i - 1])
    {
      if i < |chain| {
        ParentStable(levels, level, chain[i]);
      } else {
        NearestIsUnique(longer, |levels|, level, Nearest(levels, |levels|, level));
      }
    }
  }

  /** No heading after the last of the chain is above `level`. */
  ghost predicate Closed(levels: seq<nat>, chain: seq<nat>, level: nat) {
    forall j :: (if chain == [] then 0 else chain[|chain| - 1] + 1) <= j < |levels| ==> levels[j] >= level
  }

  lemma ChainPops(levels: seq<nat>, chain: seq<nat>, level: nat)
    requires Chain(levels, chain) && Closed(levels, chain, level)
    requires chain != [] && levels[chain[|chain| - 1]] >= level
    ensures Chain(levels, chain[..|chain| - 1]) && Closed(levels, chain[..|chain| - 1], level)
  {
    var i := |chain| - 1;
    assert Parent(levels, chain[i]) == if i == 0 then None else Some(chain[i - 1]);
  }

  lemma ChainEnds(levels: seq<nat>, chain: seq<nat>, level: nat)
    requires Chain(levels, chain) && Closed(levels, chain, level)
    requires chain != [] ==> levels[chain[|chain| - 1]] < level
    ensures Nearest(levels, |levels|, level) == if chain == [] then None else Some(chain[|chain| - 1])
  {
    NearestIsUnique(levels, |levels|, level, if chain == [] then None else Some(chain[|chain| - 1]));
  }

  /** Dropping the open headings at `level` or below leaves the parent of a heading at `level` on top. */
  method CloseTo(stack: seq<Open>, level: nat, ghost levels: seq<nat>) returns (kept: seq<Open>)
    requires Holds(levels, stack)
    ensures Top(kept) == PathOf(Nearest(levels, |levels|, level))
    ensures Holds(levels + [level], kept + [Open(level, SectionPath(|levels|))])
  {
    hide Parent, Nearest, SectionPath, Chain;
    ghost var chain: seq<nat> :| Chain(levels, chain) && Shows(levels, stack, chain)
      && if levels == [] then chain == [] else chain != [] && chain[|chain| - 1] == |levels| - 1;
    kept := stack;
    while kept != [] && kept[|kept| - 1].level >= level
      invariant Chain(levels, chain) && Shows(levels, kept, chain) && Closed(levels, chain, level)
      decreases |kept|
    {
      ChainPops(levels, chain, level);
      kept := kept[..|kept| - 1];
      chain := chain[..|chain| - 1];
    }
    ChainEnds(levels, chain, level);
    ChainGrows(levels, level, chain);
    HoldsBy(levels + [level], kept + [Open(level, SectionPath(|levels|))], chain + [|levels|]);
  }

  lemma HoldsBy(levels: seq<nat>, stack: seq<Open>, chain: seq<nat>)
    requires Chain(levels, chain) && Shows(levels, stack, chain)
    requires if levels == [] then chain == [] else chain != [] && chain[|chain| - 1] == |levels| - 1
    ensures Holds(levels, stack)
  {
  }
}
