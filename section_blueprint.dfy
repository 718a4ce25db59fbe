/**
 * The section-blueprint middleware: after every action that may touch a section's scope it
 * rebuilds the navigator's section and item instances from the registered blueprints and
 * dispatches them when they differ from the stored ones.
 *
 * The blueprint builders' callbacks are opaque: what they return for the current scope is an
 * input (`SectionFacts`, `ItemFacts`, `checkedItemIds`).
 */
module SectionBlueprint {
  import opened Wrappers
  import opened AppModel
  import opened Navigator
  import opened SectionVisibility

  // ---------------------------------------------------------------------------
  // pickPartialRecord, shallowEqual and hasNavigatorInstanceStateChanged
  // ---------------------------------------------------------------------------

  /** The entries of `entries` whose key is listed in `keys`, folded over the record's key order. */
  function PickPartialRecord<V>(entries: map<string, V>, order: seq<string>, keys: seq<string>): (r: map<string, V>)
    ensures forall k :: k in r <==> k in order && k in entries && k in keys
    ensures forall k :: k in r ==> r[k] == entries[k]
  {
    if order == [] then map[]
    else
      var k := order[|order| - 1];
      var acc := PickPartialRecord(entries, order[..|order| - 1], keys);
      if k in entries && k in keys then acc[k := entries[k]] else acc
  }

  /**
   * react-redux's shallowEqual on two records: as many keys, and every key of the first is in
   * the second with an identical value. Values stand for what `Object.is` compares.
   */
  function ShallowEqual<V(==)>(a: map<string, V>, b: map<string, V>): (r: bool)
    ensures r <==> a == b
  {
    var same := |a.Keys| == |b.Keys| && forall k :: k in a ==> k in b && a[k] == b[k];
    assert same ==> a.Keys == b.Keys by {
      if same {
        SubsetOfSameSize(a.Keys, b.Keys);
      }
    }
    same
  }

  lemma SubsetOfSameSize<T>(a: set<T>, b: set<T>)
    requires a <= b && |a| == |b|
    ensures a == b
  {
    assert b == a + (b - a);
    assert a * (b - a) == {};
    assert |b - a| == 0;
  }

  /** Every entry of `incoming` is already stored, identically, in `stored`. */
  ghost predicate AlreadyStored<V>(incoming: map<string, V>, stored: map<string, V>) {
    forall k :: k in incoming ==> k in stored && stored[k] == incoming[k]
  }

  function HasNavigatorInstanceStateChanged(navigatorState: NavigatorInstanceState, newState: NavigatorInstanceState): bool {
    var items := navigatorState.itemInstanceMap;
    var sections := navigatorState.sectionInstanceMap;
    || !ShallowEqual(PickPartialRecord(items.entries, items.order, newState.itemInstanceMap.order), newState.itemInstanceMap.entries)
    || !ShallowEqual(PickPartialRecord(sections.entries, sections.order, newState.sectionInstanceMap.order),
                     newState.sectionInstanceMap.entries)
  }

  /** The state has changed exactly when some new section or item instance is not already stored as it is. */
  lemma HasNavigatorInstanceStateChangedMeaning(navigatorState: NavigatorInstanceState, newState: NavigatorInstanceState)
    requires EnumeratesKeys(navigatorState.itemInstanceMap.order, navigatorState.itemInstanceMap.entries)
    requires EnumeratesKeys(navigatorState.sectionInstanceMap.order, navigatorState.sectionInstanceMap.entries)
    requires EnumeratesKeys(newState.itemInstanceMap.order, newState.itemInstanceMap.entries)
    requires EnumeratesKeys(newState.sectionInstanceMap.order, newState.sectionInstanceMap.entries)
    ensures HasNavigatorInstanceStateChanged(navigatorState, newState) <==>
      || !AlreadyStored(newState.itemInstanceMap.entries, navigatorState.itemInstanceMap.entries)
      || !AlreadyStored(newState.sectionInstanceMap.entries, navigatorState.sectionInstanceMap.entries)
  {
    PickMatches(navigatorState.itemInstanceMap, newState.itemInstanceMap);
    PickMatches(navigatorState.sectionInstanceMap, newState.sectionInstanceMap);
  }

  lemma PickMatches<V>(stored: Record<V>, incoming: Record<V>)
    requires EnumeratesKeys(stored.order, stored.entries) && EnumeratesKeys(incoming.order, incoming.entries)
    ensures PickPartialRecord(stored.entries, stored.order, incoming.order) == incoming.entries <==> AlreadyStored(incoming.entries, stored.entries)
  {
    var picked := PickPartialRecord(stored.entries, stored.order, incoming.order);
    if AlreadyStored(incoming.entries, stored.entries) {
      assert picked.Keys == incoming.entries.Keys;
    }
  }

  // ---------------------------------------------------------------------------
  // computeSectionCheckable
  // ---------------------------------------------------------------------------

  /** How many of `ids` are checked. */
  function CountChecked(ids: seq<string>, checked: seq<string>): (n: nat)
    ensures n <= |ids|
    ensures n == 0 <==> forall i :: 0 <= i < |ids| ==> ids[i] !in checked
    ensures n == |ids| <==> forall i :: 0 <= i < |ids| ==> ids[i] in checked
  {
    if ids == [] then 0
    else
      var prefix := ids[..|ids| - 1];
      var n := CountChecked(prefix, checked);
      assert forall i :: 0 <= i < |prefix| ==> prefix[i] == ids[i];
      n + if ids[|ids| - 1] in checked then 1 else 0
  }

  /**
   * The check box of a section: none when the builder has no makeCheckable (`checkedItemIds`
   * absent) or the section has no visible descendant items; otherwise unchecked, partial or
   * checked after how many of those items are checked.
   */
  function CheckableFor(checkedItemIds: Option<seq<string>>, visibleDescendantItemIds: Option<seq<string>>): (c: Option<Checkable>)
    ensures c.None? <==> checkedItemIds.None? || visibleDescendantItemIds.None?
    ensures c.Some? ==>
      var ids := visibleDescendantItemIds.value;
      var checked := checkedItemIds.value;
      && c.value.actionItemIds == ids
      && (c.value.value == Unchecked <==> forall i :: 0 <= i < |ids| ==> ids[i] !in checked)
      && (c.value.value == Checked <==> |ids| > 0 && forall i :: 0 <= i < |ids| ==> ids[i] in checked)
      && (c.value.value == Partial <==>
            (exists i :: 0 <= i < |ids| && ids[i] in checked) && (exists j :: 0 <= j < |ids| && ids[j] !in checked))
  {
    if checkedItemIds.None? || visibleDescendantItemIds.None? then None
    else
      var ids := visibleDescendantItemIds.value;
      var n := CountChecked(ids, checkedItemIds.value);
      Some(Checkable(if n == 0 then Unchecked else if n < |ids| then Partial else Checked, ids))
  }

  /** The counting loop of computeSectionCheckable. */
  method CountCheckedItems(ids: seq<string>, checked: seq<string>) returns (nrOfCheckedItems: nat)
    ensures nrOfCheckedItems == CountChecked(ids, checked)
  {
    nrOfCheckedItems := 0;
    var i := 0;
    while i < |ids|
      invariant 0 <= i <= |ids|
      invariant nrOfCheckedItems == CountChecked(ids[..i], checked)
    {
      assert ids[..i + 1][..i] == ids[..i];
      if ids[i] in checked {
        nrOfCheckedItems := nrOfCheckedItems + 1;
      }
      i := i + 1;
    }
    assert ids[..|ids|] == ids;
  }

  /** computeSectionCheckable: counts the checked visible descendant items of the section. */
  method ComputeSectionCheckable(checkedItemIds: Option<seq<string>>, sec: SectionInstance) returns (r: SectionInstance)
    ensures r == sec.(checkable := CheckableFor(checkedItemIds, sec.visibleDescendantItemIds))
  {
    if checkedItemIds.None? || sec.visibleDescendantItemIds.None? {
      return sec.(checkable := None);
    }
    var ids := sec.visibleDescendantItemIds.value;
    var nrOfCheckedItems := CountCheckedItems(ids, checkedItemIds.value);
    var isChecked :=
      if nrOfCheckedItems == 0 then Unchecked
      else if nrOfCheckedItems < |ids| then Partial
      else Checked;
    r := sec.(checkable := Some(Checkable(isChecked, ids)));
  }

  // ---------------------------------------------------------------------------
  // Item and section instances
  // ---------------------------------------------------------------------------

  /** What the item blueprint's callbacks return for one raw item; an absent callback is None. */
  datatype ItemFacts = ItemFacts(
    name: string,
    id: string,
    isSelected: Option<bool>,
    isHighlighted: Option<bool>,
    isVisible: Option<bool>,
    isDirty: Option<bool>,
    isDisabled: Option<bool>,
    isCheckable: Option<bool>,
    isChecked: Option<bool>)

  datatype Group = Group(id: string, name: string, itemIds: seq<string>)

  /**
   * What the section builder's callbacks return for the section's scope. `rawItems` is empty
   * when getRawItems is absent or yields nothing, `groups` when getGroups is absent.
   */
  datatype SectionFacts = SectionFacts(
    rawItems: seq<ItemFacts>,
    isInitialized: Option<bool>,
    isEmpty: Option<bool>,
    isVisible: Option<bool>,
    isLoading: Option<bool>,
    shouldBeVisibleBeforeInitialized: bool,
    groups: seq<Group>)

  /** An item instance: a missing callback yields false, except isVisible, which yields true. */
  function BuildItem(bp: Blueprint, f: ItemFacts): ItemInstance {
    ItemInstance(f.name, f.id, bp.id, bp.rootSectionId,
                 f.isSelected.GetOr(false), f.isHighlighted.GetOr(false), f.isVisible.GetOr(true),
                 f.isDirty.GetOr(false), f.isDisabled.GetOr(false), f.isCheckable.GetOr(false), f.isChecked.GetOr(false),
                 false)
  }

  /** The section's item instances; none when the blueprint has no item blueprint. */
  function BuildItems(bp: Blueprint, facts: seq<ItemFacts>): (items: seq<ItemInstance>)
    ensures |items| == |facts|
    ensures forall i :: 0 <= i < |facts| ==> items[i] == BuildItem(bp, facts[i])
  {
    if facts == [] then [] else BuildItems(bp, facts[..|facts| - 1]) + [BuildItem(bp, facts[|facts| - 1])]
  }

  function Ids(items: seq<ItemInstance>): (ids: seq<string>)
    ensures |ids| == |items| && forall i :: 0 <= i < |items| ==> ids[i] == items[i].id
  {
    if items == [] then [] else Ids(items[..|items| - 1]) + [items[|items| - 1].id]
  }

  /** The ids of the visible items, in order. */
  function VisibleIds(items: seq<ItemInstance>): (ids: seq<string>)
    ensures forall x :: x in ids <==> exists i :: 0 <= i < |items| && items[i].isVisible && items[i].id == x
  {
    if items == [] then []
    else
      var last := items[|items| - 1];
      var before := VisibleIds(items[..|items| - 1]);
      assert forall i :: 0 <= i < |items| - 1 ==> items[..|items| - 1][i] == items[i];
      before + if last.isVisible then [last.id] else []
  }

  /** The ids of `itemIds` whose instance in `itemMap` is visible, in order. */
  function VisibleInMap(itemIds: seq<string>, itemMap: map<string, ItemInstance>): (ids: seq<string>)
    ensures forall x :: x in ids <==> x in itemIds && x in itemMap && itemMap[x].isVisible
  {
    if itemIds == [] then []
    else
      var x := itemIds[|itemIds| - 1];
      VisibleInMap(itemIds[..|itemIds| - 1], itemMap) + if x in itemMap && itemMap[x].isVisible then [x] else []
  }

  function GroupInstances(groups: seq<Group>, itemMap: map<string, ItemInstance>): (gs: seq<GroupInstance>)
    ensures |gs| == |groups|
    ensures forall i :: 0 <= i < |groups| ==>
      gs[i] == GroupInstance(groups[i].id, groups[i].name, groups[i].itemIds, VisibleInMap(groups[i].itemIds, itemMap))
  {
    if groups == [] then []
    else
      var g := groups[|groups| - 1];
      GroupInstances(groups[..|groups| - 1], itemMap) + [GroupInstance(g.id, g.name, g.itemIds, VisibleInMap(g.itemIds, itemMap))]
  }

  /** The ids of the groups that have a visible item, in order. */
  function NonEmptyGroupIds(gs: seq<GroupInstance>): (ids: seq<string>)
    ensures forall x :: x in ids <==> exists i :: 0 <= i < |gs| && |gs[i].visibleItemIds| > 0 && gs[i].id == x
  {
    if gs == [] then []
    else
      var g := gs[|gs| - 1];
      var before := NonEmptyGroupIds(gs[..|gs| - 1]);
      assert forall i :: 0 <= i < |gs| - 1 ==> gs[..|gs| - 1][i] == gs[i];
      before + if |g.visibleItemIds| > 0 then [g.id] else []
  }

  predicate AnySelected(items: seq<ItemInstance>) {
    exists i :: 0 <= i < |items| && items[i].isSelected
  }

  predicate AnyHighlighted(items: seq<ItemInstance>) {
    exists i :: 0 <= i < |items| && items[i].isHighlighted
  }

  predicate AnyScrollingIntoView(items: seq<ItemInstance>) {
    exists i :: 0 <= i < |items| && items[i].isVisible && items[i].shouldScrollIntoView
  }

  /**
   * The section instance built for a blueprint whose scope changed. `itemMap` is the item
   * instance map after this section's items were stored in it: a group's visible items are
   * looked up there.
   */
  function BuildSectionInstance(bp: Blueprint, f: SectionFacts, itemMap: map<string, ItemInstance>): (sec: SectionInstance)
    ensures sec.id == bp.id && sec.rootSectionId == bp.rootSectionId
    ensures sec.isInitialized == f.isInitialized.GetOr(true) && sec.isEmpty == f.isEmpty.GetOr(false)
    // before initialisation only the flag (or the empty display) makes a section visible
    ensures !sec.isInitialized ==> (sec.isVisible <==> f.shouldBeVisibleBeforeInitialized || (bp.emptyDisplay && sec.isEmpty))
    // afterwards it needs the builder's consent and something visible to show
    ensures sec.isInitialized ==>
      (sec.isVisible <==> (bp.emptyDisplay && sec.isEmpty)
                          || (f.isVisible.GetOr(true) && (|sec.visibleItemIds| > 0 || |sec.visibleGroupIds| > 0)))
    ensures sec.visibleChildSectionIds.None? && sec.visibleDescendantSectionIds.None?
    ensures sec.visibleDescendantItemIds.None? && sec.checkable.None?
  {
    var items := if bp.hasItemBlueprint then BuildItems(bp, f.rawItems) else [];
    var isInitialized := f.isInitialized.GetOr(true);
    var isEmpty := f.isEmpty.GetOr(false);
    var groups := GroupInstances(f.groups, itemMap);
    var visibleItemIds := VisibleIds(items);
    var visibleGroupIds := NonEmptyGroupIds(groups);
    var isVisible :=
      || (f.shouldBeVisibleBeforeInitialized && !isInitialized)
      || (bp.emptyDisplay && isEmpty)
      || (isInitialized && f.isVisible.GetOr(true) && (|visibleItemIds| > 0 || |visibleGroupIds| > 0));
    SectionInstance(
      bp.id, bp.rootSectionId, Ids(items), groups, f.isLoading.GetOr(false), isVisible, isInitialized,
      AnySelected(items), AnyHighlighted(items), isEmpty,
      AnyScrollingIntoView(items),
      visibleItemIds, visibleGroupIds, None, None, None, None)
  }

  /** The section's own items: their ids, the visible ones, and whether one is selected or highlighted. */
  lemma SectionInstanceItems(bp: Blueprint, f: SectionFacts, itemMap: map<string, ItemInstance>)
    ensures var sec := BuildSectionInstance(bp, f, itemMap);
      var items := if bp.hasItemBlueprint then BuildItems(bp, f.rawItems) else [];
      && sec.itemIds == Ids(items)
      && (forall x :: x in sec.visibleItemIds <==> exists i :: 0 <= i < |items| && items[i].isVisible && items[i].id == x)
      && (sec.isSelected <==> AnySelected(items))
      && (sec.isHighlighted <==> AnyHighlighted(items))
  {
  }

  /** A group shows the items of its list whose stored instance is visible; a group with one is listed. */
  lemma SectionInstanceGroups(bp: Blueprint, f: SectionFacts, itemMap: map<string, ItemInstance>)
    ensures var sec := BuildSectionInstance(bp, f, itemMap);
      && |sec.groups| == |f.groups|
      && (forall i :: 0 <= i < |f.groups| ==> sec.groups[i].id == f.groups[i].id && sec.groups[i].itemIds == f.groups[i].itemIds)
      && (forall i :: 0 <= i < |f.groups| ==>
            forall x :: x in sec.groups[i].visibleItemIds <==> x in f.groups[i].itemIds && x in itemMap && itemMap[x].isVisible)
      && (forall x :: x in sec.visibleGroupIds <==>
            exists i :: 0 <= i < |sec.groups| && |sec.groups[i].visibleItemIds| > 0 && sec.groups[i].id == x)
  {
  }

  /**
   * shouldExpand is computed from items built in the same step, none of which has been asked to
   * scroll into view yet: a freshly built section never asks to expand.
   */
  lemma SectionInstanceNeverExpands(bp: Blueprint, f: SectionFacts, itemMap: map<string, ItemInstance>)
    ensures !BuildSectionInstance(bp, f, itemMap).shouldExpand
  {
    var items := if bp.hasItemBlueprint then BuildItems(bp, f.rawItems) else [];
    assert forall i :: 0 <= i < |items| ==> !items[i].shouldScrollIntoView;
  }
}
