/**
 * computeSectionVisibility: a section is visible when it already was or when one of its child
 * sections is, and it collects the visible child sections, the visible descendant sections and
 * the visible descendant items of its subtree. The instances live in a map from section id;
 * the recursion threads that map through the children, in blueprint order.
 */
module SectionVisibility {
  import opened Wrappers
  import opened Navigator

  const MISSING_CHILD_INSTANCE := "[sectionBlueprintMiddleware]: childSectionInstance is undefined"

  /** The child-section relation has no cycle: `rank` decreases from a blueprint to each child. */
  ghost predicate Ranked(bps: map<string, Blueprint>, rank: string -> nat) {
    forall id, c :: id in bps && c in Children(bps[id]) ==> rank(c) < rank(id)
  }

  /** The triple the source returns: visibility, visible descendant sections, visible descendant items. */
  datatype Visibility = Visibility(isVisible: bool, descendantSectionIds: Option<seq<string>>, descendantItemIds: seq<string>)

  datatype Visited = Visited(sections: map<string, SectionInstance>, result: Visibility)

  /** What the loop over a section's children has gathered so far, with the parent as updated in place. */
  datatype Gathered = Gathered(sections: map<string, SectionInstance>, parent: SectionInstance,
                               itemIds: seq<string>, childVisibility: map<string, bool>)

  predicate AnyVisible(childVisibility: map<string, bool>) {
    exists c :: c in childVisibility && childVisibility[c]
  }

  /** The result of computeSectionVisibility on section `id`, with the instance map afterwards. */
  function Visit(bps: map<string, Blueprint>, ghost rank: string -> nat, m: map<string, SectionInstance>, id: string): (r: Outcome<Visited>)
    requires Ranked(bps, rank) && id in m && m.Keys <= bps.Keys
    ensures r.Ok? ==> r.value.sections.Keys == m.Keys
    ensures r.Ok? && m[id].isVisible ==> r.value.result.isVisible
    decreases rank(id), 1
  {
    var children := Children(bps[id]);
    if |children| > 0 then
      match GatherChildren(bps, rank, id, children, m, m[id])
      case Error(e) => Error(e)
      case Ok(g) =>
        Finish(g.sections, id, AfterChildren(g.parent, g.childVisibility), g.itemIds)
    else
      Finish(m, id, m[id], [])
  }

  /**
   * After the loop: the visible children join the visible descendant sections (without repetitions
   * when both lists exist), and a visible child makes the section visible.
   */
  function AfterChildren(p: SectionInstance, childVisibility: map<string, bool>): (r: SectionInstance)
    ensures r.isVisible <==> p.isVisible || AnyVisible(childVisibility)
    ensures r.visibleChildSectionIds == p.visibleChildSectionIds && r.visibleItemIds == p.visibleItemIds
    ensures r.visibleDescendantSectionIds == MergedDescendants(p.visibleDescendantSectionIds, p.visibleChildSectionIds)
  {
    p.(visibleDescendantSectionIds := MergedDescendants(p.visibleDescendantSectionIds, p.visibleChildSectionIds),
       isVisible := p.isVisible || AnyVisible(childVisibility))
  }

  /** The visible descendant sections once the visible children have joined them. */
  function MergedDescendants(descendants: Option<seq<string>>, children: Option<seq<string>>): (r: Option<seq<string>>)
    ensures Elements(r.GetOr([])) == Elements(descendants.GetOr([])) + Elements(children.GetOr([]))
    ensures r.None? <==> descendants.None? && children.None?
  {
    if children.None? then descendants
    else if descendants.Some? then Some(Dedup(descendants.value + children.value))
    else children
  }

  /** The own visible items follow the children's; the section is written back under its id. */
  function Finish(m: map<string, SectionInstance>, id: string, p: SectionInstance, childItems: seq<string>): (r: Outcome<Visited>)
    requires id in m
    ensures r.Ok? && r.value.sections.Keys == m.Keys
    ensures r.value.result.descendantItemIds == childItems + p.visibleItemIds
    ensures r.value.sections[id] == p.(visibleDescendantItemIds := Some(r.value.result.descendantItemIds))
    ensures r.value.result.isVisible == p.isVisible && r.value.result.descendantSectionIds == p.visibleDescendantSectionIds
    ensures forall k :: k in m && k != id ==> r.value.sections[k] == m[k]
  {
    var itemIds := childItems + p.visibleItemIds;
    var p' := p.(visibleDescendantItemIds := Some(itemIds));
    Ok(Visited(m[id := p'], Visibility(p'.isVisible, p'.visibleDescendantSectionIds, itemIds)))
  }

  /** The loop over the first children of `parentId`; a missing child instance or an error below stops it. */
  function GatherChildren(bps: map<string, Blueprint>, ghost rank: string -> nat, parentId: string, children: seq<string>,
                          m: map<string, SectionInstance>, parent: SectionInstance): (r: Outcome<Gathered>)
    requires Ranked(bps, rank) && m.Keys <= bps.Keys
    requires forall c :: c in children ==> rank(c) < rank(parentId)
    ensures r.Ok? ==> r.value.sections.Keys == m.Keys
    ensures r.Ok? ==> r.value.parent == parent.(visibleChildSectionIds := r.value.parent.visibleChildSectionIds,
                                                visibleDescendantSectionIds := r.value.parent.visibleDescendantSectionIds)
    decreases rank(parentId), 0, |children|
  {
    if children == [] then Ok(Gathered(m, parent, [], map[]))
    else
      match GatherChildren(bps, rank, parentId, children[..|children| - 1], m, parent)
      case Error(e) => Error(e)
      case Ok(g) =>
        var c := children[|children| - 1];
        if c !in g.sections then Error(MISSING_CHILD_INSTANCE)
        else
          match Visit(bps, rank, g.sections, c)
          case Error(e) => Error(e)
          case Ok(v) => Ok(Absorbed(g, c, v))
  }

  /** One turn of the loop: the child's descendants and, when it is visible, the child itself are recorded on the parent. */
  function Absorbed(g: Gathered, c: string, v: Visited): (r: Gathered)
    ensures r.sections == v.sections
    ensures r.parent == g.parent.(visibleChildSectionIds := r.parent.visibleChildSectionIds,
                                  visibleDescendantSectionIds := r.parent.visibleDescendantSectionIds)
  {
    var res := v.result;
    var p := g.parent;
    var p' := p.(visibleDescendantSectionIds := AppendedDescendants(p.visibleDescendantSectionIds, res.descendantSectionIds),
                 visibleChildSectionIds := if res.isVisible then Some(p.visibleChildSectionIds.GetOr([]) + [c]) else p.visibleChildSectionIds);
    Gathered(v.sections, p', g.itemIds + res.descendantItemIds, g.childVisibility[c := res.isVisible])
  }

  /** A child's visible descendant sections, when it reports some, are appended to the parent's. */
  function AppendedDescendants(descendants: Option<seq<string>>, childDescendants: Option<seq<string>>): (r: Option<seq<string>>)
    ensures r.GetOr([]) == descendants.GetOr([]) + childDescendants.GetOr([])
    ensures r.None? <==> descendants.None? && childDescendants.None?
  {
    if childDescendants.Some? then Some(descendants.GetOr([]) + childDescendants.value) else descendants
  }

  /** Once the loop has thrown, the whole loop throws the same error. */
  lemma {:induction false} GatherErrorPropagates(bps: map<string, Blueprint>, rank: string -> nat, parentId: string, children: seq<string>,
                                                 m: map<string, SectionInstance>, parent: SectionInstance, i: nat)
    requires Ranked(bps, rank) && m.Keys <= bps.Keys
    requires forall c :: c in children ==> rank(c) < rank(parentId)
    requires i <= |children|
    requires GatherChildren(bps, rank, parentId, children[..i], m, parent).Error?
    ensures GatherChildren(bps, rank, parentId, children, m, parent) == GatherChildren(bps, rank, parentId, children[..i], m, parent)
    decreases |children|
  {
    if i == |children| {
      assert children[..i] == children;
    } else {
      var prefix := children[..|children| - 1];
      assert prefix[..i] == children[..i];
      GatherErrorPropagates(bps, rank, parentId, prefix, m, parent, i);
    }
  }

  /** The method: a loop over the children that recurses into each. */
  method ComputeSectionVisibility(bps: map<string, Blueprint>, ghost rank: string -> nat, m: map<string, SectionInstance>, id: string)
    returns (res: Outcome<Visited>)
    requires Ranked(bps, rank) && id in m && m.Keys <= bps.Keys
    ensures res == Visit(bps, rank, m, id)
    decreases rank(id), 1
  {
    var children := Children(bps[id]);
    var gathered := Gathered(m, m[id], [], map[]);
    if |children| > 0 {
      var outcome := VisitChildren(bps, rank, id, children, m, m[id]);
      if outcome.Error? {
        return Error(outcome.message);
      }
      gathered := outcome.value;
      var sec := CloseChildren(gathered.parent, gathered.childVisibility);
      gathered := gathered.(parent := sec);
    }
    var items := gathered.itemIds + gathered.parent.visibleItemIds;
    var sec := gathered.parent.(visibleDescendantItemIds := Some(items));
    res := Ok(Visited(gathered.sections[id := sec], Visibility(sec.isVisible, sec.visibleDescendantSectionIds, items)));
  }

  /** The source's loop over the children of `parentId`, which stops at the first missing child instance or error. */
  method VisitChildren(bps: map<string, Blueprint>, ghost rank: string -> nat, parentId: string, children: seq<string>,
                       m: map<string, SectionInstance>, parent: SectionInstance) returns (r: Outcome<Gathered>)
    requires Ranked(bps, rank) && m.Keys <= bps.Keys
    requires forall c :: c in children ==> rank(c) < rank(parentId)
    ensures r == GatherChildren(bps, rank, parentId, children, m, parent)
    decreases rank(parentId), 0, |children|
  {
    var gathered := Gathered(m, parent, [], map[]);
    var i := 0;
    while i < |children|
      invariant 0 <= i <= |children|
      invariant GatherChildren(bps, rank, parentId, children[..i], m, parent) == Ok(gathered)
    {
      var c := children[i];
      assert children[..i + 1][..i] == children[..i];
      if c !in gathered.sections {
        GatherErrorPropagates(bps, rank, parentId, children, m, parent, i + 1);
        return Error(MISSING_CHILD_INSTANCE);
      }
      var child := ComputeSectionVisibility(bps, rank, gathered.sections, c);
      if child.Error? {
        GatherErrorPropagates(bps, rank, parentId, children, m, parent, i + 1);
        return Error(child.message);
      }
      assert children[..i + 1][i] == c;
      gathered := AbsorbChild(gathered, c, child.value);
      i := i + 1;
    }
    assert children[..|children|] == children;
    return Ok(gathered);
  }

  /** The body of the source's loop over the children, updating the parent's fields. */
  method AbsorbChild(g: Gathered, c: string, v: Visited) returns (g': Gathered)
    ensures g' == Absorbed(g, c, v)
  {
    var r := v.result;
    var descendants := g.parent.visibleDescendantSectionIds;
    if r.descendantSectionIds.Some? {
      if descendants.Some? {
        descendants := Some(descendants.value + r.descendantSectionIds.value);
      } else {
        assert [] + r.descendantSectionIds.value == r.descendantSectionIds.value;
        descendants := Some(r.descendantSectionIds.value);
      }
    }
    var items := g.itemIds + r.descendantItemIds;
    var childVisibility := g.childVisibility[c := r.isVisible];
    var visibleChildren := g.parent.visibleChildSectionIds;
    if r.isVisible {
      if visibleChildren.Some? {
        visibleChildren := Some(visibleChildren.value + [c]);
      } else {
        assert [] + [c] == [c];
        visibleChildren := Some([c]);
      }
    }
    var sec := g.parent.(visibleDescendantSectionIds := descendants, visibleChildSectionIds := visibleChildren);
    g' := Gathered(v.sections, sec, items, childVisibility);
  }

  /** The statements after the source's loop over the children. */
  method CloseChildren(p: SectionInstance, childVisibility: map<string, bool>) returns (sec: SectionInstance)
    ensures sec == AfterChildren(p, childVisibility)
  {
    var descendants := p.visibleDescendantSectionIds;
    if p.visibleChildSectionIds.Some? {
      if descendants.Some? {
        descendants := Some(Dedup(descendants.value + p.visibleChildSectionIds.value));
      } else {
        descendants := p.visibleChildSectionIds;
      }
    }
    sec := p.(visibleDescendantSectionIds := descendants, isVisible := p.isVisible || AnyVisible(childVisibility));
  }

  // ---------------------------------------------------------------------------
  // Subtrees, and what a visit may read and write
  // ---------------------------------------------------------------------------

  /** The section and all sections below it in the blueprints. */
  ghost function Subtree(bps: map<string, Blueprint>, rank: string -> nat, id: string): set<string>
    requires Ranked(bps, rank)
    decreases rank(id), 1
  {
    {id} + if id in bps then SubtreesOf(bps, rank, id, Children(bps[id])) else {}
  }

  ghost function SubtreesOf(bps: map<string, Blueprint>, rank: string -> nat, parentId: string, children: seq<string>): set<string>
    requires Ranked(bps, rank)
    requires forall c :: c in children ==> rank(c) < rank(parentId)
    decreases rank(parentId), 0, |children|
  {
    if children == [] then {}
    else SubtreesOf(bps, rank, parentId, children[..|children| - 1]) + Subtree(bps, rank, children[|children| - 1])
  }

  /** Every section below another has a smaller rank. */
  lemma {:induction false} SubtreeRank(bps: map<string, Blueprint>, rank: string -> nat, id: string, k: string)
    requires Ranked(bps, rank) && k in Subtree(bps, rank, id)
    ensures rank(k) <= rank(id)
    decreases rank(id), 1
  {
    if k != id {
      SubtreesOfRank(bps, rank, id, Children(bps[id]), k);
    }
  }

  lemma {:induction false} SubtreesOfRank(bps: map<string, Blueprint>, rank: string -> nat, parentId: string, children: seq<string>, k: string)
    requires Ranked(bps, rank)
    requires forall c :: c in children ==> rank(c) < rank(parentId)
    requires k in SubtreesOf(bps, rank, parentId, children)
    ensures rank(k) < rank(parentId)
    decreases rank(parentId), 0, |children|
  {
    var prefix := children[..|children| - 1];
    if k in SubtreesOf(bps, rank, parentId, prefix) {
      SubtreesOfRank(bps, rank, parentId, prefix, k);
    } else {
      SubtreeRank(bps, rank, children[|children| - 1], k);
    }
  }

  /** A visit succeeds exactly when every section of the subtree has an instance. */
  lemma {:induction false} VisitSucceedsIff(bps: map<string, Blueprint>, rank: string -> nat, m: map<string, SectionInstance>, id: string)
    requires Ranked(bps, rank) && id in m && m.Keys <= bps.Keys
    ensures Visit(bps, rank, m, id).Ok? <==> Subtree(bps, rank, id) <= m.Keys
    decreases rank(id), 1
  {
    var children := Children(bps[id]);
    GatherSucceedsIff(bps, rank, id, children, m, m[id]);
  }

  lemma {:induction false} GatherSucceedsIff(bps: map<string, Blueprint>, rank: string -> nat, parentId: string, children: seq<string>,
                                             m: map<string, SectionInstance>, parent: SectionInstance)
    requires Ranked(bps, rank) && m.Keys <= bps.Keys
    requires forall c :: c in children ==> rank(c) < rank(parentId)
    ensures GatherChildren(bps, rank, parentId, children, m, parent).Ok? <==> SubtreesOf(bps, rank, parentId, children) <= m.Keys
    decreases rank(parentId), 0, |children|
  {
    if children != [] {
      var prefix := children[..|children| - 1];
      var c := children[|children| - 1];
      GatherSucceedsIff(bps, rank, parentId, prefix, m, parent);
      var g := GatherChildren(bps, rank, parentId, prefix, m, parent);
      if g.Ok? && c in g.value.sections {
        VisitSucceedsIff(bps, rank, g.value.sections, c);
      }
    }
  }

  /** A visit writes only inside the subtree it visits. */
  lemma {:induction false} VisitFrame(bps: map<string, Blueprint>, rank: string -> nat, m: map<string, SectionInstance>, id: string, k: string)
    requires Ranked(bps, rank) && id in m && m.Keys <= bps.Keys
    requires Visit(bps, rank, m, id).Ok? && k in m && k !in Subtree(bps, rank, id)
    ensures Visit(bps, rank, m, id).value.sections[k] == m[k]
    decreases rank(id), 1
  {
    var children := Children(bps[id]);
    if |children| > 0 {
      GatherFrame(bps, rank, id, children, m, m[id], k);
    }
  }

  lemma {:induction false} GatherFrame(bps: map<string, Blueprint>, rank: string -> nat, parentId: string, children: seq<string>,
                                       m: map<string, SectionInstance>, parent: SectionInstance, k: string)
    requires Ranked(bps, rank) && m.Keys <= bps.Keys
    requires forall c :: c in children ==> rank(c) < rank(parentId)
    requires GatherChildren(bps, rank, parentId, children, m, parent).Ok?
    requires k in m && k !in SubtreesOf(bps, rank, parentId, children)
    ensures GatherChildren(bps, rank, parentId, children, m, parent).value.sections[k] == m[k]
    decreases rank(parentId), 0, |children|
  {
    if children != [] {
      var prefix := children[..|children| - 1];
      var c := children[|children| - 1];
      GatherFrame(bps, rank, parentId, prefix, m, parent, k);
      var g := GatherChildren(bps, rank, parentId, prefix, m, parent).value;
      VisitFrame(bps, rank, g.sections, c, k);
    }
  }

  // ---------------------------------------------------------------------------
  // What a visit computes, when the blueprints form a tree
  // ---------------------------------------------------------------------------

  /** The subtrees of distinct children share no section. */
  ghost predicate SiblingsDisjoint(bps: map<string, Blueprint>, rank: string -> nat, children: seq<string>)
    requires Ranked(bps, rank)
  {
    forall i, j :: 0 <= i < j < |children| ==> Subtree(bps, rank, children[i]) !! Subtree(bps, rank, children[j])
  }

  ghost predicate Tree(bps: map<string, Blueprint>, rank: string -> nat) {
    && Ranked(bps, rank)
    && forall id :: id in bps ==> SiblingsDisjoint(bps, rank, Children(bps[id]))
  }

  /** The visible descendant items recorded on the given sections, concatenated in order. */
  function DescendantItems(sections: map<string, SectionInstance>, children: seq<string>): seq<string> {
    if children == [] then []
    else
      var c := children[|children| - 1];
      DescendantItems(sections, children[..|children| - 1])
        + (if c in sections then sections[c].visibleDescendantItemIds.GetOr([]) else [])
  }

  /** The given sections that are visible, in order. */
  function VisibleAmong(sections: map<string, SectionInstance>, children: seq<string>): (r: seq<string>)
    ensures forall c :: c in r <==> c in children && c in sections && sections[c].isVisible
  {
    if children == [] then []
    else
      var c := children[|children| - 1];
      VisibleAmong(sections, children[..|children| - 1]) + (if c in sections && sections[c].isVisible then [c] else [])
  }

  /** Both only look at the listed sections. */
  lemma {:induction false} ChildrenViewsAgree(s1: map<string, SectionInstance>, s2: map<string, SectionInstance>, children: seq<string>)
    requires forall c :: c in children ==> (c in s1 <==> c in s2) && (c in s1 ==> s1[c] == s2[c])
    ensures DescendantItems(s1, children) == DescendantItems(s2, children)
    ensures VisibleAmong(s1, children) == VisibleAmong(s2, children)
  {
    if children != [] {
      ChildrenViewsAgree(s1, s2, children[..|children| - 1]);
    }
  }

  /** The visited section is written back with its visibility and its visible descendant items. */
  lemma VisitWritesSection(bps: map<string, Blueprint>, rank: string -> nat, m: map<string, SectionInstance>, id: string)
    requires Ranked(bps, rank) && id in m && m.Keys <= bps.Keys
    requires Visit(bps, rank, m, id).Ok?
    ensures var v := Visit(bps, rank, m, id).value;
      && v.sections[id].isVisible == v.result.isVisible
      && v.sections[id].visibleDescendantItemIds == Some(v.result.descendantItemIds)
  {
  }

  /** What one turn of the loop adds, field by field. */
  lemma AbsorbedEffect(g: Gathered, c: string, v: Visited)
    ensures var r := Absorbed(g, c, v);
      && r.itemIds == g.itemIds + v.result.descendantItemIds
      && r.childVisibility == g.childVisibility[c := v.result.isVisible]
      && r.parent.visibleChildSectionIds.GetOr([]) == g.parent.visibleChildSectionIds.GetOr([]) + (if v.result.isVisible then [c] else [])
      && (r.parent.visibleChildSectionIds.None? <==> g.parent.visibleChildSectionIds.None? && !v.result.isVisible)
  {
  }

  /**
   * One turn of the loop over a tree: the new child is not among the earlier ones, and its visit
   * leaves the earlier children's instances as they were.
   */
  lemma GatherStepInTree(bps: map<string, Blueprint>, rank: string -> nat, children: seq<string>,
                         sections: map<string, SectionInstance>, v: Visited)
    requires Ranked(bps, rank) && sections.Keys <= bps.Keys
    requires SiblingsDisjoint(bps, rank, children) && children != []
    requires children[|children| - 1] in sections
    requires Visit(bps, rank, sections, children[|children| - 1]) == Ok(v)
    ensures SiblingsDisjoint(bps, rank, children[..|children| - 1])
    ensures children[|children| - 1] !in children[..|children| - 1]
    ensures forall c' :: c' in children[..|children| - 1] && c' in sections ==> c' in v.sections && v.sections[c'] == sections[c']
  {
    var prefix := children[..|children| - 1];
    var c := children[|children| - 1];
    assert SiblingsDisjoint(bps, rank, prefix) by {
      forall i, j | 0 <= i < j < |prefix| ensures Subtree(bps, rank, prefix[i]) !! Subtree(bps, rank, prefix[j]) {
        assert prefix[i] == children[i] && prefix[j] == children[j];
      }
    }
    forall i | 0 <= i < |prefix| ensures prefix[i] != c {
      assert prefix[i] == children[i] && children[i] in Subtree(bps, rank, children[i]);
      assert c in Subtree(bps, rank, c);
      assert Subtree(bps, rank, children[i]) !! Subtree(bps, rank, children[|children| - 1]);
    }
    forall c' | c' in prefix && c' in sections
      ensures c' in v.sections && v.sections[c'] == sections[c']
    {
      var i :| 0 <= i < |prefix| && prefix[i] == c';
      SiblingUntouched(bps, rank, children, sections, i);
    }
  }

  /** Visiting the last child leaves an earlier sibling's instance as it was. */
  lemma SiblingUntouched(bps: map<string, Blueprint>, rank: string -> nat, children: seq<string>,
                         sections: map<string, SectionInstance>, i: nat)
    requires Ranked(bps, rank) && sections.Keys <= bps.Keys
    requires SiblingsDisjoint(bps, rank, children) && i < |children| - 1
    requires children[i] in sections && children[|children| - 1] in sections
    requires Visit(bps, rank, sections, children[|children| - 1]).Ok?
    ensures Visit(bps, rank, sections, children[|children| - 1]).value.sections[children[i]] == sections[children[i]]
  {
    assert children[i] in Subtree(bps, rank, children[i]);
    assert Subtree(bps, rank, children[i]) !! Subtree(bps, rank, children[|children| - 1]);
    VisitFrame(bps, rank, sections, children[|children| - 1], children[i]);
  }

  /** Over a tree, the loop gathers the children's visible descendant items, in blueprint order. */
  lemma {:induction false} GatherItemsInTree(bps: map<string, Blueprint>, rank: string -> nat, parentId: string, children: seq<string>,
                                             m: map<string, SectionInstance>, parent: SectionInstance)
    requires Ranked(bps, rank) && m.Keys <= bps.Keys
    requires forall c :: c in children ==> rank(c) < rank(parentId)
    requires SiblingsDisjoint(bps, rank, children)
    requires GatherChildren(bps, rank, parentId, children, m, parent).Ok?
    ensures var g := GatherChildren(bps, rank, parentId, children, m, parent).value;
      g.itemIds == DescendantItems(g.sections, children)
    decreases |children|
  {
    if children != [] {
      var prefix := children[..|children| - 1];
      var c := children[|children| - 1];
      var g0 := GatherChildren(bps, rank, parentId, prefix, m, parent).value;
      var v := Visit(bps, rank, g0.sections, c).value;
      GatherStepInTree(bps, rank, children, g0.sections, v);
      VisitWritesSection(bps, rank, g0.sections, c);
      AbsorbedEffect(g0, c, v);
      GatherItemsInTree(bps, rank, parentId, prefix, m, parent);
      ChildrenViewsAgree(v.sections, g0.sections, prefix);
    }
  }

  /** Over a tree, the loop records each child's visibility as its instance ends up. */
  lemma {:induction false} GatherVisibilityInTree(bps: map<string, Blueprint>, rank: string -> nat, parentId: string, children: seq<string>,
                                                  m: map<string, SectionInstance>, parent: SectionInstance)
    requires Ranked(bps, rank) && m.Keys <= bps.Keys
    requires forall c :: c in children ==> rank(c) < rank(parentId)
    requires SiblingsDisjoint(bps, rank, children)
    requires GatherChildren(bps, rank, parentId, children, m, parent).Ok?
    ensures var g := GatherChildren(bps, rank, parentId, children, m, parent).value;
      && (forall c :: c in g.childVisibility <==> c in children)
      && (forall c :: c in children ==> c in g.sections && g.childVisibility[c] == g.sections[c].isVisible)
    decreases |children|
  {
    if children != [] {
      var prefix := children[..|children| - 1];
      var c := children[|children| - 1];
      var g0 := GatherChildren(bps, rank, parentId, prefix, m, parent).value;
      var v := Visit(bps, rank, g0.sections, c).value;
      GatherStepInTree(bps, rank, children, g0.sections, v);
      VisitWritesSection(bps, rank, g0.sections, c);
      AbsorbedEffect(g0, c, v);
      GatherVisibilityInTree(bps, rank, parentId, prefix, m, parent);
      var g := GatherChildren(bps, rank, parentId, children, m, parent).value;
      forall c' ensures c' in g.childVisibility <==> c' in children {
        assert c' in children <==> c' in prefix || c' == c;
      }
      forall c' | c' in children ensures c' in g.sections && g.childVisibility[c'] == g.sections[c'].isVisible {
        if c' != c {
          assert c' in prefix;
        }
      }
    }
  }

  /** Over a tree, the loop appends the visible children, in blueprint order, to what the parent listed. */
  lemma {:induction false} GatherVisibleChildrenInTree(bps: map<string, Blueprint>, rank: string -> nat, parentId: string, children: seq<string>,
                                                       m: map<string, SectionInstance>, parent: SectionInstance)
    requires Ranked(bps, rank) && m.Keys <= bps.Keys
    requires forall c :: c in children ==> rank(c) < rank(parentId)
    requires SiblingsDisjoint(bps, rank, children)
    requires GatherChildren(bps, rank, parentId, children, m, parent).Ok?
    ensures var g := GatherChildren(bps, rank, parentId, children, m, parent).value;
      && g.parent.visibleChildSectionIds.GetOr([]) == parent.visibleChildSectionIds.GetOr([]) + VisibleAmong(g.sections, children)
      && (g.parent.visibleChildSectionIds.None? <==> parent.visibleChildSectionIds.None? && VisibleAmong(g.sections, children) == [])
    decreases |children|
  {
    if children != [] {
      var prefix := children[..|children| - 1];
      var c := children[|children| - 1];
      var g0 := GatherChildren(bps, rank, parentId, prefix, m, parent).value;
      var v := Visit(bps, rank, g0.sections, c).value;
      GatherStepInTree(bps, rank, children, g0.sections, v);
      VisitWritesSection(bps, rank, g0.sections, c);
      AbsorbedEffect(g0, c, v);
      GatherVisibleChildrenInTree(bps, rank, parentId, prefix, m, parent);
      ChildrenViewsAgree(v.sections, g0.sections, prefix);
      var g := GatherChildren(bps, rank, parentId, children, m, parent).value;
      assert g == Absorbed(g0, c, v);
      var tail := if v.result.isVisible then [c] else [];
      assert VisibleAmong(g.sections, children) == VisibleAmong(g0.sections, prefix) + tail;
      calc {
        g.parent.visibleChildSectionIds.GetOr([]);
        g0.parent.visibleChildSectionIds.GetOr([]) + tail;
        (parent.visibleChildSectionIds.GetOr([]) + VisibleAmong(g0.sections, prefix)) + tail;
        parent.visibleChildSectionIds.GetOr([]) + VisibleAmong(g.sections, children);
      }
    }
  }

  /** A visit of a section with children is the loop over them followed by the closing statements. */
  lemma VisitUnfolds(bps: map<string, Blueprint>, rank: string -> nat, m: map<string, SectionInstance>, id: string)
    requires Ranked(bps, rank) && id in m && m.Keys <= bps.Keys
    requires Visit(bps, rank, m, id).Ok? && |Children(bps[id])| > 0
    ensures GatherChildren(bps, rank, id, Children(bps[id]), m, m[id]).Ok?
    ensures var g := GatherChildren(bps, rank, id, Children(bps[id]), m, m[id]).value;
      Visit(bps, rank, m, id) == Finish(g.sections, id, AfterChildren(g.parent, g.childVisibility), g.itemIds)
    ensures forall c :: c in Children(bps[id]) ==> c != id
  {
    forall c | c in Children(bps[id]) ensures c != id {
      assert rank(c) < rank(id);
    }
  }

  /** Over a tree, a section's visible descendant items are its children's, in blueprint order, followed by its own visible items. */
  lemma VisitItemsInTree(bps: map<string, Blueprint>, rank: string -> nat, m: map<string, SectionInstance>, id: string)
    requires Tree(bps, rank) && id in m && m.Keys <= bps.Keys
    requires Visit(bps, rank, m, id).Ok?
    ensures var v := Visit(bps, rank, m, id).value;
      && v.result.descendantItemIds == DescendantItems(v.sections, Children(bps[id])) + m[id].visibleItemIds
      && v.sections[id].visibleDescendantItemIds == Some(v.result.descendantItemIds)
  {
    var children := Children(bps[id]);
    if |children| > 0 {
      VisitUnfolds(bps, rank, m, id);
      var g := GatherChildren(bps, rank, id, children, m, m[id]).value;
      var v := Visit(bps, rank, m, id).value;
      ChildrenViewsAgree(v.sections, g.sections, children);
      GatherItemsInTree(bps, rank, id, children, m, m[id]);
    }
  }

  /** Over a tree, a section ends up visible exactly when it was visible or one of its child sections is. */
  lemma VisitVisibleInTree(bps: map<string, Blueprint>, rank: string -> nat, m: map<string, SectionInstance>, id: string)
    requires Tree(bps, rank) && id in m && m.Keys <= bps.Keys
    requires Visit(bps, rank, m, id).Ok?
    ensures var v := Visit(bps, rank, m, id).value;
      && v.sections[id].isVisible == v.result.isVisible
      && (v.result.isVisible <==> m[id].isVisible || exists c :: c in Children(bps[id]) && c in v.sections && v.sections[c].isVisible)
  {
    var children := Children(bps[id]);
    if |children| > 0 {
      VisitUnfolds(bps, rank, m, id);
      var g := GatherChildren(bps, rank, id, children, m, m[id]).value;
      var v := Visit(bps, rank, m, id).value;
      GatherVisibilityInTree(bps, rank, id, children, m, m[id]);
      assert AnyVisible(g.childVisibility) <==> exists c :: c in children && g.sections[c].isVisible;
      assert forall c :: c in children ==> c in v.sections && v.sections[c] == g.sections[c];
    }
  }

  /** Over a tree, a section that listed no visible children lists exactly its visible child sections, in blueprint order. */
  lemma VisitChildListInTree(bps: map<string, Blueprint>, rank: string -> nat, m: map<string, SectionInstance>, id: string)
    requires Tree(bps, rank) && id in m && m.Keys <= bps.Keys
    requires Visit(bps, rank, m, id).Ok? && m[id].visibleChildSectionIds.None?
    ensures var v := Visit(bps, rank, m, id).value;
      var visible := VisibleAmong(v.sections, Children(bps[id]));
      v.sections[id].visibleChildSectionIds == if visible == [] then None else Some(visible)
  {
    var children := Children(bps[id]);
    if |children| > 0 {
      VisitUnfolds(bps, rank, m, id);
      var g := GatherChildren(bps, rank, id, children, m, m[id]).value;
      var v := Visit(bps, rank, m, id).value;
      ChildrenViewsAgree(v.sections, g.sections, children);
      GatherVisibleChildrenInTree(bps, rank, id, children, m, m[id]);
      var visible := VisibleAmong(g.sections, children);
      assert v.sections[id].visibleChildSectionIds == g.parent.visibleChildSectionIds;
      assert g.parent.visibleChildSectionIds.GetOr([]) == [] + visible;
      assert [] + visible == visible;
    }
  }

  // ---------------------------------------------------------------------------
  // The visible descendant sections, when the blueprints form a tree
  // ---------------------------------------------------------------------------

  /** The instances of `within` are fresh: no visible child or descendant section recorded yet. */
  ghost predicate Unvisited(m: map<string, SectionInstance>, within: set<string>) {
    forall k :: k in within && k in m ==> m[k].visibleDescendantSectionIds.None? && m[k].visibleChildSectionIds.None?
  }

  /** The sections of `within` whose instance is visible. */
  ghost function VisibleSections(sections: map<string, SectionInstance>, within: set<string>): set<string> {
    set k | k in within && k in sections && sections[k].isVisible
  }

  /** A section found below the given children lies below one of them. */
  lemma {:induction false} InSubtreesOf(bps: map<string, Blueprint>, rank: string -> nat, parentId: string, children: seq<string>, k: string)
    requires Ranked(bps, rank)
    requires forall c :: c in children ==> rank(c) < rank(parentId)
    requires k in SubtreesOf(bps, rank, parentId, children)
    ensures exists i :: 0 <= i < |children| && k in Subtree(bps, rank, children[i])
    decreases |children|
  {
    var n := |children| - 1;
    var prefix := children[..n];
    if k !in Subtree(bps, rank, children[n]) {
      InSubtreesOf(bps, rank, parentId, prefix, k);
      var i :| 0 <= i < |prefix| && k in Subtree(bps, rank, prefix[i]);
      assert prefix[i] == children[i];
    }
  }

  /** Every child lies in the sections below the children. */
  lemma {:induction false} ChildrenInSubtreesOf(bps: map<string, Blueprint>, rank: string -> nat, parentId: string, children: seq<string>)
    requires Ranked(bps, rank)
    requires forall c :: c in children ==> rank(c) < rank(parentId)
    ensures Elements(children) <= SubtreesOf(bps, rank, parentId, children)
    decreases |children|
  {
    if children != [] {
      var n := |children| - 1;
      ChildrenInSubtreesOf(bps, rank, parentId, children[..n]);
      ElementsSnoc(children);
    }
  }

  /** Over a tree, the last child's subtree shares no section with the earlier children's. */
  lemma SubtreesOfDisjoint(bps: map<string, Blueprint>, rank: string -> nat, parentId: string, children: seq<string>)
    requires Ranked(bps, rank) && SiblingsDisjoint(bps, rank, children) && children != []
    requires forall c :: c in children ==> rank(c) < rank(parentId)
    ensures SubtreesOf(bps, rank, parentId, children[..|children| - 1]) !! Subtree(bps, rank, children[|children| - 1])
  {
    var n := |children| - 1;
    var prefix := children[..n];
    forall k | k in SubtreesOf(bps, rank, parentId, prefix) ensures k !in Subtree(bps, rank, children[n]) {
      InSubtreesOf(bps, rank, parentId, prefix, k);
      var i :| 0 <= i < |prefix| && k in Subtree(bps, rank, prefix[i]);
      assert prefix[i] == children[i];
      assert Subtree(bps, rank, children[i]) !! Subtree(bps, rank, children[n]);
    }
  }

  lemma VisibleSectionsUnion(sections: map<string, SectionInstance>, a: set<string>, b: set<string>)
    ensures VisibleSections(sections, a + b) == VisibleSections(sections, a) + VisibleSections(sections, b)
  {
  }

  /** Removing the children from the sections below them leaves what lies strictly below each. */
  lemma SplitBelow(before: set<string>, sub: set<string>, earlier: set<string>, c: string)
    requires earlier <= before && c in sub && before !! sub
    ensures before + sub - (earlier + {c}) == (before - earlier) + (sub - {c})
  {
  }

  /** Only the listed sections' visibility matters. */
  lemma VisibleSectionsAgree(s1: map<string, SectionInstance>, s2: map<string, SectionInstance>, within: set<string>)
    requires forall k :: k in within ==> (k in s1 <==> k in s2) && (k in s1 ==> s1[k].isVisible == s2[k].isVisible)
    ensures VisibleSections(s1, within) == VisibleSections(s2, within)
  {
  }

  /** Descendant lists that hold sets `a` and `b`, and are absent exactly when empty, merge into one holding both. */
  lemma MergedHolds(descendants: Option<seq<string>>, children: Option<seq<string>>, a: set<string>, b: set<string>)
    requires Elements(descendants.GetOr([])) == a && (descendants.None? <==> a == {})
    requires Elements(children.GetOr([])) == b && (children.None? <==> b == {})
    ensures Elements(MergedDescendants(descendants, children).GetOr([])) == a + b
    ensures MergedDescendants(descendants, children).None? <==> a + b == {}
  {
  }

  /** The same for a child's descendants appended to the parent's. */
  lemma AppendedHolds(descendants: Option<seq<string>>, childDescendants: Option<seq<string>>, a: set<string>, b: set<string>)
    requires Elements(descendants.GetOr([])) == a && (descendants.None? <==> a == {})
    requires Elements(childDescendants.GetOr([])) == b && (childDescendants.None? <==> b == {})
    ensures Elements(AppendedDescendants(descendants, childDescendants).GetOr([])) == a + b
    ensures AppendedDescendants(descendants, childDescendants).None? <==> a + b == {}
  {
    var r := AppendedDescendants(descendants, childDescendants).GetOr([]);
    assert r == descendants.GetOr([]) + childDescendants.GetOr([]);
    assert Elements(r) == a + b;
  }

  /**
   * Over a tree of fresh instances, a section's visible descendant sections are exactly the
   * visible sections below it, and it records none exactly when there is none.
   */
  lemma {:induction false} VisitDescendantsInTree(bps: map<string, Blueprint>, rank: string -> nat, m: map<string, SectionInstance>, id: string)
    requires Tree(bps, rank) && id in m && m.Keys <= bps.Keys
    requires Visit(bps, rank, m, id).Ok? && Unvisited(m, Subtree(bps, rank, id))
    ensures var v := Visit(bps, rank, m, id).value;
      && v.sections[id].visibleDescendantSectionIds == v.result.descendantSectionIds
      && Elements(v.result.descendantSectionIds.GetOr([])) == VisibleSections(v.sections, Subtree(bps, rank, id) - {id})
      && (v.result.descendantSectionIds.None? <==> VisibleSections(v.sections, Subtree(bps, rank, id) - {id}) == {})
    decreases rank(id), 1
  {
    var children := Children(bps[id]);
    SubtreeSplits(bps, rank, id);
    if |children| > 0 {
      VisitUnfolds(bps, rank, m, id);
      ClosedDescendantsInTree(bps, rank, id, m);
      var g := GatherChildren(bps, rank, id, children, m, m[id]).value;
      VisibleSectionsAgree(Visit(bps, rank, m, id).value.sections, g.sections, SubtreesOf(bps, rank, id, children));
    }
  }

  /** A section's subtree is the section itself and, apart from it, the subtrees of its children. */
  lemma SubtreeSplits(bps: map<string, Blueprint>, rank: string -> nat, id: string)
    requires Ranked(bps, rank) && id in bps
    ensures Subtree(bps, rank, id) == {id} + SubtreesOf(bps, rank, id, Children(bps[id]))
    ensures Subtree(bps, rank, id) - {id} == SubtreesOf(bps, rank, id, Children(bps[id]))
  {
    var children := Children(bps[id]);
    if id in SubtreesOf(bps, rank, id, children) {
      SubtreesOfRank(bps, rank, id, children, id);
    }
  }

  /** After the loop and the statements that close it, the section holds the visible sections below its children. */
  lemma ClosedDescendantsInTree(bps: map<string, Blueprint>, rank: string -> nat, id: string, m: map<string, SectionInstance>)
    requires Tree(bps, rank) && id in m && m.Keys <= bps.Keys
    requires GatherChildren(bps, rank, id, Children(bps[id]), m, m[id]).Ok?
    requires Unvisited(m, SubtreesOf(bps, rank, id, Children(bps[id])))
    requires m[id].visibleDescendantSectionIds.None? && m[id].visibleChildSectionIds.None?
    ensures var g := GatherChildren(bps, rank, id, Children(bps[id]), m, m[id]).value;
      var merged := MergedDescendants(g.parent.visibleDescendantSectionIds, g.parent.visibleChildSectionIds);
      var expected := VisibleSections(g.sections, SubtreesOf(bps, rank, id, Children(bps[id])));
      && Elements(merged.GetOr([])) == expected
      && (merged.None? <==> expected == {})
    decreases rank(id), 0, |Children(bps[id])| + 1
  {
    var children := Children(bps[id]);
    var g := GatherChildren(bps, rank, id, children, m, m[id]).value;
    GatherDescendantsInTree(bps, rank, id, children, m, m[id]);
    GatherVisibleChildrenInTree(bps, rank, id, children, m, m[id]);
    ChildrenInSubtreesOf(bps, rank, id, children);
    VisibleAmongElements(g.sections, children);
    ClosedMerge(g.sections, g.parent.visibleDescendantSectionIds, g.parent.visibleChildSectionIds,
                VisibleAmong(g.sections, children), SubtreesOf(bps, rank, id, children), Elements(children));
  }

  /** The visible children, as a set. */
  lemma {:induction false} VisibleAmongElements(sections: map<string, SectionInstance>, children: seq<string>)
    ensures Elements(VisibleAmong(sections, children)) == VisibleSections(sections, Elements(children))
    ensures VisibleAmong(sections, children) == [] <==> VisibleSections(sections, Elements(children)) == {}
  {
    var visible := VisibleAmong(sections, children);
    if visible != [] {
      assert visible[0] in Elements(visible);
    }
  }

  /** The closing merge joins the sections strictly below the children with the visible children. */
  lemma ClosedMerge(sections: map<string, SectionInstance>, descendants: Option<seq<string>>, visibleChildren: Option<seq<string>>,
                    visible: seq<string>, below: set<string>, elems: set<string>)
    requires elems <= below
    requires Elements(descendants.GetOr([])) == VisibleSections(sections, below - elems)
    requires descendants.None? <==> VisibleSections(sections, below - elems) == {}
    requires visibleChildren.GetOr([]) == [] + visible && (visibleChildren.None? <==> visible == [])
    requires Elements(visible) == VisibleSections(sections, elems) && (visible == [] <==> VisibleSections(sections, elems) == {})
    ensures Elements(MergedDescendants(descendants, visibleChildren).GetOr([])) == VisibleSections(sections, below)
    ensures MergedDescendants(descendants, visibleChildren).None? <==> VisibleSections(sections, below) == {}
  {
    assert [] + visible == visible;
    MergedHolds(descendants, visibleChildren, VisibleSections(sections, below - elems), VisibleSections(sections, elems));
    assert below == (below - elems) + elems;
    VisibleSectionsUnion(sections, below - elems, elems);
  }

  /** The loop leaves fresh the instances outside the subtrees it visits. */
  lemma GatherKeepsUnvisited(bps: map<string, Blueprint>, rank: string -> nat, parentId: string, children: seq<string>,
                             m: map<string, SectionInstance>, parent: SectionInstance, within: set<string>)
    requires Ranked(bps, rank) && m.Keys <= bps.Keys
    requires forall c :: c in children ==> rank(c) < rank(parentId)
    requires GatherChildren(bps, rank, parentId, children, m, parent).Ok?
    requires Unvisited(m, within) && within !! SubtreesOf(bps, rank, parentId, children)
    ensures Unvisited(GatherChildren(bps, rank, parentId, children, m, parent).value.sections, within)
  {
    var g := GatherChildren(bps, rank, parentId, children, m, parent).value;
    forall k | k in within && k in g.sections
      ensures g.sections[k].visibleDescendantSectionIds.None? && g.sections[k].visibleChildSectionIds.None?
    {
      GatherFrame(bps, rank, parentId, children, m, parent, k);
    }
  }

  /** A visit leaves the visibility of sections outside its subtree as it was. */
  lemma VisitKeepsVisibility(bps: map<string, Blueprint>, rank: string -> nat, m: map<string, SectionInstance>, id: string, within: set<string>)
    requires Ranked(bps, rank) && id in m && m.Keys <= bps.Keys
    requires Visit(bps, rank, m, id).Ok? && within !! Subtree(bps, rank, id)
    ensures VisibleSections(Visit(bps, rank, m, id).value.sections, within) == VisibleSections(m, within)
  {
    var v := Visit(bps, rank, m, id).value;
    forall k | k in within && k in m ensures k in v.sections && v.sections[k] == m[k] {
      VisitFrame(bps, rank, m, id, k);
    }
    VisibleSectionsAgree(v.sections, m, within);
  }

  /**
   * Over a tree of fresh instances, the loop gathers on the parent exactly the visible sections
   * below its children, apart from the children themselves.
   */
  lemma {:induction false} GatherDescendantsInTree(bps: map<string, Blueprint>, rank: string -> nat, parentId: string, children: seq<string>,
                                                   m: map<string, SectionInstance>, parent: SectionInstance)
    requires Tree(bps, rank) && m.Keys <= bps.Keys
    requires forall c :: c in children ==> rank(c) < rank(parentId)
    requires SiblingsDisjoint(bps, rank, children)
    requires GatherChildren(bps, rank, parentId, children, m, parent).Ok?
    requires Unvisited(m, SubtreesOf(bps, rank, parentId, children)) && parent.visibleDescendantSectionIds.None?
    ensures var g := GatherChildren(bps, rank, parentId, children, m, parent).value;
      var expected := VisibleSections(g.sections, SubtreesOf(bps, rank, parentId, children) - Elements(children));
      && Elements(g.parent.visibleDescendantSectionIds.GetOr([])) == expected
      && (g.parent.visibleDescendantSectionIds.None? <==> expected == {})
    decreases rank(parentId), 0, |children|
  {
    if children != [] {
      var n := |children| - 1;
      var prefix := children[..n];
      var c := children[n];
      var g0 := GatherChildren(bps, rank, parentId, prefix, m, parent).value;
      var v := Visit(bps, rank, g0.sections, c).value;
      var g := GatherChildren(bps, rank, parentId, children, m, parent).value;
      assert g == Absorbed(g0, c, v);
      var before := SubtreesOf(bps, rank, parentId, prefix);
      var sub := Subtree(bps, rank, c);
      assert SubtreesOf(bps, rank, parentId, children) == before + sub;
      SubtreesOfDisjoint(bps, rank, parentId, children);
      GatherStepInTree(bps, rank, children, g0.sections, v);
      GatherDescendantsInTree(bps, rank, parentId, prefix, m, parent);
      GatherKeepsUnvisited(bps, rank, parentId, prefix, m, parent, sub);
      VisitDescendantsInTree(bps, rank, g0.sections, c);
      VisitKeepsVisibility(bps, rank, g0.sections, c, before - Elements(prefix));
      ChildrenInSubtreesOf(bps, rank, parentId, prefix);
      assert c in sub;
      ElementsSnoc(children);
      SplitBelow(before, sub, Elements(prefix), c);
      VisibleSectionsUnion(v.sections, before - Elements(prefix), sub - {c});
      AppendedHolds(g0.parent.visibleDescendantSectionIds, v.result.descendantSectionIds,
                    VisibleSections(v.sections, before - Elements(prefix)), VisibleSections(v.sections, sub - {c}));
    }
  }
}
