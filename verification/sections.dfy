/**
 * The hierarchical scan (app.py:90-151): a stack of open sections keyed by heading level.
 *
 * The source keeps each section as a dict that sits both in the tree (in `sections_data`
 * or in its parent's `subsections`) and on `current_section_stack`, and appends to it in
 * place through either reference. Here every section lives once in an arena `nodes`, and
 * the tree, the top-level list and the stack hold its index: an update through the stack
 * is an update of the one arena entry, which the tree sees.
 */
module Sections {
  import opened Wrappers
  import opened Text
  import opened Elements
  import opened Extract

  /** A section dict in the arena; `children` holds the arena indices of its `subsections`. */
  datatype Node = Node(title: string, level: Digit, content: seq<ContentNode>, children: seq<nat>)

  /**
   * The builder's state: every section made so far, `sections_data` as `roots`, and
   * `current_section_stack` as `stack` (bottom first), both as arena indices.
   */
  datatype BuildState = BuildState(nodes: seq<Node>, roots: seq<nat>, stack: seq<nat>)

  const Initial: BuildState := BuildState([], [], [])

  ghost predicate StackInBounds(st: BuildState) {
    forall k :: 0 <= k < |st.stack| ==> st.stack[k] < |st.nodes|
  }

  /** The level of the `k`-th open section from the bottom of the stack. */
  function StackLevel(st: BuildState, k: nat): Digit
    requires StackInBounds(st) && k < |st.stack|
  {
    st.nodes[st.stack[k]].level
  }

  /** Levels on the stack strictly increase from bottom to top. */
  ghost predicate StackIncreasing(st: BuildState)
    requires StackInBounds(st)
  {
    forall a, b :: 0 <= a < b < |st.stack| ==> StackLevel(st, a) < StackLevel(st, b)
  }

  /**
   * The stack is a root-to-leaf path: it starts at a top-level section, goes down through
   * `subsections`, and its top has no subsection yet.
   */
  ghost predicate StackIsPath(st: BuildState)
    requires StackInBounds(st)
  {
    && (st.stack != [] ==> st.stack[0] in st.roots)
    && (forall a, b :: 0 <= a < b < |st.stack| && b == a + 1 ==> st.stack[b] in st.nodes[st.stack[a]].children)
    && (st.stack != [] ==> st.nodes[st.stack[|st.stack| - 1]].children == [])
  }

  /** Children come later in the arena than their parent and have a strictly greater level. */
  ghost predicate ArenaOrdered(nodes: seq<Node>) {
    forall i, k :: 0 <= i < |nodes| && 0 <= k < |nodes[i].children| ==>
      i < nodes[i].children[k] < |nodes| && nodes[i].level < nodes[nodes[i].children[k]].level
  }

  /** Every section has a clean, non-empty title and only non-empty content entries. */
  ghost predicate NodesNonEmpty(nodes: seq<Node>) {
    forall i :: 0 <= i < |nodes| ==>
      && nodes[i].title != "" && IsClean(nodes[i].title)
      && forall k :: 0 <= k < |nodes[i].content| ==> NonEmptyContent(nodes[i].content[k])
  }

  /** The builder's invariant. */
  ghost predicate Invariant(st: BuildState) {
    && StackInBounds(st)
    && (forall k :: 0 <= k < |st.roots| ==> st.roots[k] < |st.nodes|)
    && ArenaOrdered(st.nodes)
    && NodesNonEmpty(st.nodes)
    && StackIncreasing(st)
    && StackIsPath(st)
  }

  /** Pops every open section whose level is at least `level` off the top of the stack (app.py:110-111). */
  function PopClosed(nodes: seq<Node>, stack: seq<nat>, level: int): (r: seq<nat>)
    requires forall k :: 0 <= k < |stack| ==> stack[k] < |nodes|
    ensures |r| <= |stack| && r == stack[..|r|]
    ensures forall k :: |r| <= k < |stack| ==> nodes[stack[k]].level >= level
    ensures r == [] || nodes[r[|r| - 1]].level < level
  {
    if stack != [] && nodes[stack[|stack| - 1]].level >= level then PopClosed(nodes, stack[..|stack| - 1], level)
    else stack
  }

  /** A heading with a non-empty title: pop, attach to the new top or make a root, push (app.py:102-117). */
  function Open(st: BuildState, level: Digit, title: string): BuildState
    requires StackInBounds(st)
  {
    var kept := PopClosed(st.nodes, st.stack, level);
    var n := |st.nodes|;
    var section := Node(title, level, [], []);
    if kept == [] then
      BuildState(st.nodes + [section], st.roots + [n], [n])
    else
      var p := kept[|kept| - 1];
      BuildState(st.nodes[p := st.nodes[p].(children := st.nodes[p].children + [n])] + [section], st.roots, kept + [n])
  }

  /** Appends a content entry to the section on top of the stack (app.py:150-151). */
  function AddContent(st: BuildState, item: ContentNode): BuildState
    requires StackInBounds(st) && st.stack != []
  {
    var top := st.stack[|st.stack| - 1];
    BuildState(st.nodes[top := st.nodes[top].(content := st.nodes[top].content + [item])], st.roots, st.stack)
  }

  /** One iteration of the hierarchical loop (app.py:94-151). */
  function Step(st: BuildState, e: Element): BuildState
    requires StackInBounds(st)
  {
    if !InSectionScan(e) then st
    else match e
      case Heading(level, headline, text) =>
        var title := HeadingTitle(headline, text);
        if title == "" then st else Open(st, level, title)
      case _ =>
        if st.stack == [] then st
        else match ContentOf(e)
          case None => st
          case Some(item) => AddContent(st, item)
  }

  /** `Open` keeps the old sections' titles, levels and content, and adds one fresh section. */
  lemma {:induction false} OpenKeepsNodes(st: BuildState, level: Digit, title: string)
    requires StackInBounds(st)
    ensures var st' := Open(st, level, title);
      && |st'.nodes| == |st.nodes| + 1
      && st'.nodes[|st.nodes|] == Node(title, level, [], [])
      && forall i :: 0 <= i < |st.nodes| ==>
           st'.nodes[i].title == st.nodes[i].title && st'.nodes[i].level == st.nodes[i].level &&
           st'.nodes[i].content == st.nodes[i].content
  {
  }

  /** After `Open`, the stack is the kept prefix with the new section on top; the kept levels are unchanged. */
  lemma {:induction false} OpenStackShape(st: BuildState, level: Digit, title: string)
    requires StackInBounds(st)
    ensures var st' := Open(st, level, title);
      var kept := PopClosed(st.nodes, st.stack, level);
      && StackInBounds(st')
      && st'.stack == kept + [|st.nodes|]
      && StackLevel(st', |kept|) == level
      && forall k :: 0 <= k < |kept| ==> StackLevel(st', k) == StackLevel(st, k)
  {
    OpenKeepsNodes(st, level, title);
  }

  lemma {:induction false} OpenKeepsStackIncreasing(st: BuildState, level: Digit, title: string)
    requires StackInBounds(st) && StackIncreasing(st)
    ensures StackInBounds(Open(st, level, title)) && StackIncreasing(Open(st, level, title))
  {
    var st' := Open(st, level, title);
    var kept := PopClosed(st.nodes, st.stack, level);
    OpenStackShape(st, level, title);
    forall a, b | 0 <= a < b < |st'.stack| ensures StackLevel(st', a) < StackLevel(st', b) {
      if b == |kept| {
        assert StackLevel(st, a) <= StackLevel(st, |kept| - 1);
        assert StackLevel(st, |kept| - 1) < level;
      } else {
        assert StackLevel(st, a) < StackLevel(st, b);
      }
    }
  }

  lemma {:induction false} OpenKeepsArenaOrdered(st: BuildState, level: Digit, title: string)
    requires StackInBounds(st) && ArenaOrdered(st.nodes)
    ensures ArenaOrdered(Open(st, level, title).nodes)
  {
    var st' := Open(st, level, title);
    var kept := PopClosed(st.nodes, st.stack, level);
    var n := |st.nodes|;
    OpenKeepsNodes(st, level, title);
    forall i, k | 0 <= i < |st'.nodes| && 0 <= k < |st'.nodes[i].children|
      ensures i < st'.nodes[i].children[k] < |st'.nodes| && st'.nodes[i].level < st'.nodes[st'.nodes[i].children[k]].level
    {
      if kept != [] && i == kept[|kept| - 1] && k == |st.nodes[i].children| {
        assert st'.nodes[i].children[k] == n;
      } else if i < n {
        assert st'.nodes[i].children[k] == st.nodes[i].children[k];
      }
    }
  }

  lemma {:induction false} OpenKeepsStackIsPath(st: BuildState, level: Digit, title: string)
    requires StackInBounds(st) && StackIsPath(st)
    ensures StackInBounds(Open(st, level, title)) && StackIsPath(Open(st, level, title))
  {
    var st' := Open(st, level, title);
    var kept := PopClosed(st.nodes, st.stack, level);
    OpenStackShape(st, level, title);
    assert st'.nodes[|st.nodes|].children == [] by {
      OpenKeepsNodes(st, level, title);
    }
    forall a, b | 0 <= a < b < |st'.stack| && b == a + 1 ensures st'.stack[b] in st'.nodes[st'.stack[a]].children {
      assert st'.stack[a] == st.stack[a];
      if b < |kept| {
        assert st'.stack[b] == st.stack[b];
        assert st.stack[b] in st.nodes[st.stack[a]].children;
      }
    }
  }

  lemma {:induction false} OpenKeepsInvariant(st: BuildState, level: Digit, title: string)
    requires Invariant(st) && title != "" && IsClean(title)
    ensures Invariant(Open(st, level, title))
  {
    OpenKeepsNodes(st, level, title);
    OpenKeepsStackIncreasing(st, level, title);
    OpenKeepsArenaOrdered(st, level, title);
    OpenKeepsStackIsPath(st, level, title);
  }

  lemma {:induction false} AddContentKeepsInvariant(st: BuildState, item: ContentNode)
    requires Invariant(st) && st.stack != [] && NonEmptyContent(item)
    ensures Invariant(AddContent(st, item))
  {
    var st' := AddContent(st, item);
    assert forall i :: 0 <= i < |st.nodes| ==> st'.nodes[i].children == st.nodes[i].children && st'.nodes[i].level == st.nodes[i].level;
    assert forall k :: 0 <= k < |st.stack| ==> StackLevel(st', k) == StackLevel(st, k);
  }

  lemma {:induction false} StepKeepsInvariant(st: BuildState, e: Element)
    requires Invariant(st)
    ensures Invariant(Step(st, e))
  {
    if e.Heading? {
      var title := HeadingTitle(e.headline, e.text);
      if title != "" {
        OpenKeepsInvariant(st, e.level, title);
      }
    } else if InSectionScan(e) && st.stack != [] && ContentOf(e).Some? {
      AddContentKeepsInvariant(st, ContentOf(e).value);
    }
  }

  /** The state after the hierarchical loop has run over `es`, starting from `st`; the invariant holds throughout. */
  function RunFrom(st: BuildState, es: seq<Element>): (r: BuildState)
    requires Invariant(st)
    ensures Invariant(r)
  {
    if es == [] then st
    else
      var prev := RunFrom(st, es[..|es| - 1]);
      StepKeepsInvariant(prev, es[|es| - 1]);
      Step(prev, es[|es| - 1])
  }

  /** The state after the whole hierarchical loop over `es`. */
  function Run(es: seq<Element>): BuildState {
    RunFrom(Initial, es)
  }

  /**
   * A new section goes under the nearest open section whose level is strictly smaller,
   * or becomes a new top-level section when there is none; every open section at its
   * level or deeper is closed, every shallower one stays open, and it is pushed on top.
   */
  lemma {:induction false} OpenAttachesToNearestSmaller(st: BuildState, level: Digit, title: string)
    requires StackInBounds(st) && StackIncreasing(st)
    ensures var st' := Open(st, level, title);
      var n := |st.nodes|;
      var k := |PopClosed(st.nodes, st.stack, level)|;
      && k <= |st.stack|
      && (forall j :: 0 <= j < k ==> StackLevel(st, j) < level)
      && (forall j :: k <= j < |st.stack| ==> StackLevel(st, j) >= level)
      && st'.stack == st.stack[..k] + [n]
      && |st'.nodes| == n + 1 && st'.nodes[n] == Node(title, level, [], [])
      && (k == 0 ==> st'.roots == st.roots + [n] && st'.nodes[..n] == st.nodes)
      && (k > 0 ==>
            var p := st.stack[k - 1];
            st'.roots == st.roots &&
            st'.nodes[..n] == st.nodes[p := st.nodes[p].(children := st.nodes[p].children + [n])])
  {
    var kept := PopClosed(st.nodes, st.stack, level);
    var k := |kept|;
    forall j | 0 <= j < k ensures StackLevel(st, j) < level {
      assert kept[k - 1] == st.stack[k - 1];
      if j < k - 1 {
        assert StackLevel(st, j) < StackLevel(st, k - 1);
      }
    }
  }

  /**
   * A heading whose cleaned title is empty, a content element while no section is open,
   * and an element that yields no content entry all leave the state unchanged. Otherwise a
   * content entry is appended to the section on top of the stack and to no other.
   */
  lemma {:induction false} ContentGoesToTop(st: BuildState, e: Element)
    requires Invariant(st)
    ensures e.Heading? && HeadingTitle(e.headline, e.text) == "" ==> Step(st, e) == st
    ensures !e.Heading? && (st.stack == [] || ContentOf(e).None?) ==> Step(st, e) == st
    ensures !e.Heading? && st.stack != [] && ContentOf(e).Some? ==>
              var st' := Step(st, e);
              var top := st.stack[|st.stack| - 1];
              && st'.roots == st.roots && st'.stack == st.stack && |st'.nodes| == |st.nodes|
              && st'.nodes[top] == st.nodes[top].(content := st.nodes[top].content + [ContentOf(e).value])
              && forall i :: 0 <= i < |st.nodes| && i != top ==> st'.nodes[i] == st.nodes[i]
  {
  }

  /** The section tree rooted at arena entry `i`. */
  function ToSection(nodes: seq<Node>, i: nat): (r: Section)
    requires ArenaOrdered(nodes) && i < |nodes|
    ensures r.title == nodes[i].title && r.level == nodes[i].level && r.content == nodes[i].content
    ensures |r.subsections| == |nodes[i].children|
    decreases |nodes| - i, 1
  {
    Section(nodes[i].title, nodes[i].level, nodes[i].content, ToSections(nodes, nodes[i].children, i))
  }

  /** The trees rooted at the arena entries `cs`, each later in the arena than `bound`. */
  function ToSections(nodes: seq<Node>, cs: seq<nat>, bound: int): (r: seq<Section>)
    requires ArenaOrdered(nodes)
    requires forall k :: 0 <= k < |cs| ==> bound < cs[k] < |nodes|
    ensures |r| == |cs|
    ensures forall k :: 0 <= k < |cs| ==> r[k] == ToSection(nodes, cs[k])
    decreases |nodes| - bound, 0, |cs|
  {
    if cs == [] then [] else [ToSection(nodes, cs[0])] + ToSections(nodes, cs[1..], bound)
  }

  /** `sections_data` with every nested `subsections` list, read off the arena. */
  function Forest(st: BuildState): seq<Section>
    requires Invariant(st)
  {
    ToSections(st.nodes, st.roots, -1)
  }

  /**
   * A section has a clean non-empty title, no empty content entry, and subsections of
   * strictly greater level, all alike.
   */
  ghost predicate WellFormedSection(s: Section)
    decreases s
  {
    && s.title != "" && IsClean(s.title)
    && (forall k :: 0 <= k < |s.content| ==> NonEmptyContent(s.content[k]))
    && forall k :: 0 <= k < |s.subsections| ==>
         s.subsections[k].level > s.level && WellFormedSection(s.subsections[k])
  }

  lemma {:induction false} ToSectionWellFormed(nodes: seq<Node>, i: nat)
    requires ArenaOrdered(nodes) && NodesNonEmpty(nodes) && i < |nodes|
    ensures WellFormedSection(ToSection(nodes, i))
    decreases |nodes| - i
  {
    var s := ToSection(nodes, i);
    var cs := nodes[i].children;
    forall k | 0 <= k < |cs| ensures s.subsections[k].level > s.level && WellFormedSection(s.subsections[k]) {
      ToSectionWellFormed(nodes, cs[k]);
    }
  }

  /** Every section the builder outputs, at any depth, is well formed. */
  lemma {:induction false} ForestWellFormed(st: BuildState)
    requires Invariant(st)
    ensures forall k :: 0 <= k < |Forest(st)| ==> WellFormedSection(Forest(st)[k])
  {
    forall k | 0 <= k < |st.roots| ensures WellFormedSection(Forest(st)[k]) {
      ToSectionWellFormed(st.nodes, st.roots[k]);
    }
  }

  /** Running over `a + b` is running over `a`, then over `b`. */
  lemma {:induction false} RunFromAppend(st: BuildState, a: seq<Element>, b: seq<Element>)
    requires Invariant(st)
    ensures RunFrom(st, a + b) == RunFrom(RunFrom(st, a), b)
    decreases |b|
  {
    if b == [] {
      assert a + b == a;
    } else {
      assert (a + b)[..|a + b| - 1] == a + b[..|b| - 1];
      RunFromAppend(st, a, b[..|b| - 1]);
    }
  }

  /** Content before the first heading belongs to no section: the builder is still empty after it. */
  lemma {:induction false} NoHeadingsKeepInitial(pre: seq<Element>)
    requires forall k :: 0 <= k < |pre| ==> !pre[k].Heading?
    ensures RunFrom(Initial, pre) == Initial
  {
    if pre != [] {
      NoHeadingsKeepInitial(pre[..|pre| - 1]);
    }
  }

  /** Content preceding the first heading never appears in the section tree. */
  lemma {:induction false} LeadingContentDropped(pre: seq<Element>, rest: seq<Element>)
    requires forall k :: 0 <= k < |pre| ==> !pre[k].Heading?
    ensures Run(pre + rest) == Run(rest)
  {
    RunFromAppend(Initial, pre, rest);
    NoHeadingsKeepInitial(pre);
  }

  /** A heading whose cleaned title is empty is ignored wherever it stands: nothing is popped for it. */
  lemma {:induction false} EmptyHeadingIgnored(a: seq<Element>, h: Element, b: seq<Element>)
    requires h.Heading? && HeadingTitle(h.headline, h.text) == ""
    ensures Run(a + [h] + b) == Run(a + b)
  {
    assert RunFrom(Run(a), [h]) == Run(a) by {
      assert [h][..0] == [];
    }
    assert Run(a + [h]) == Run(a) by {
      RunFromAppend(Initial, a, [h]);
    }
    RunFromAppend(Initial, a + [h], b);
    RunFromAppend(Initial, a, b);
  }

  /**
   * The mutable state of the hierarchical loop: the section dicts, `sections_data` and
   * `current_section_stack`, updated in place.
   */
  class SectionBuilder {
    var nodes: seq<Node>
    var roots: seq<nat>
    var stack: seq<nat>

    /** The current state as a value. */
    function Model(): BuildState
      reads this
    {
      BuildState(nodes, roots, stack)
    }

    ghost predicate Valid()
      reads this
    {
      Invariant(Model())
    }

    /** No section exists yet and none is open (app.py:41, 92). */
    constructor ()
      ensures Model() == Initial && Valid()
    {
      nodes, roots, stack := [], [], [];
    }

    /** Pops every open section whose level is at least `level` (app.py:110-111). */
    method PopClosedSections(level: Digit)
      requires forall k :: 0 <= k < |stack| ==> stack[k] < |nodes|
      modifies this
      ensures nodes == old(nodes) && roots == old(roots)
      ensures stack == PopClosed(old(nodes), old(stack), level)
    {
      while stack != [] && nodes[stack[|stack| - 1]].level >= level
        invariant nodes == old(nodes) && roots == old(roots)
        invariant forall k :: 0 <= k < |stack| ==> stack[k] < |nodes|
        invariant PopClosed(nodes, stack, level) == PopClosed(old(nodes), old(stack), level)
        decreases |stack|
      {
        stack := stack[..|stack| - 1];
      }
    }

    /** Pops the sections the new heading closes, attaches the new section and pushes it (app.py:102-117). */
    method OpenSection(level: Digit, title: string)
      requires Valid() && title != "" && IsClean(title)
      modifies this
      ensures Model() == Open(old(Model()), level, title)
      ensures Valid()
    {
      ghost var before := Model();
      PopClosedSections(level);
      var n := |nodes|;
      if stack != [] {
        var p := stack[|stack| - 1];
        nodes := nodes[p := nodes[p].(children := nodes[p].children + [n])];
      } else {
        roots := roots + [n];
      }
      nodes := nodes + [Node(title, level, [], [])];
      stack := stack + [n];
      assert Model() == Open(before, level, title);
      OpenKeepsInvariant(before, level, title);
    }

    /** Appends a content entry to the section on top of the stack (app.py:150-151). */
    method AppendContent(item: ContentNode)
      requires Valid() && stack != [] && NonEmptyContent(item)
      modifies this
      ensures Model() == AddContent(old(Model()), item)
      ensures Valid()
    {
      AddContentKeepsInvariant(Model(), item);
      var top := stack[|stack| - 1];
      nodes := nodes[top := nodes[top].(content := nodes[top].content + [item])];
    }
  }

  /** The hierarchical loop over the elements the scan selects (app.py:90-151). */
  method BuildSections(es: seq<Element>) returns (sections: seq<Section>)
    ensures sections == Forest(Run(es))
    ensures forall k :: 0 <= k < |sections| ==> WellFormedSection(sections[k])
  {
    var builder := new SectionBuilder();
    for i := 0 to |es|
      invariant builder.Valid() && builder.Model() == Run(es[..i])
    {
      assert es[..i + 1][..i] == es[..i];
      var e := es[i];
      if InSectionScan(e) {
        if e.Heading? {
          var title := HeadingTitle(e.headline, e.text);
          if title != "" {
            builder.OpenSection(e.level, title);
          }
        } else if builder.stack != [] {
          var item := BuildContent(e);
          if item.Some? {
            builder.AppendContent(item.value);
          }
        }
      }
    }
    assert es[..|es|] == es;
    ForestWellFormed(builder.Model());
    sections := ToSections(builder.nodes, builder.roots, -1);
  }
}
