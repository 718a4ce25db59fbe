/**
 * The navigator's instance records: what the section-blueprint middleware builds from the
 * registered section blueprints and hands to the navigator slice.
 */
module Navigator {
  import opened Wrappers

  datatype CheckState = Unchecked | Partial | Checked

  /** A section's check box; the two actions are created for `actionItemIds`. */
  datatype Checkable = Checkable(value: CheckState, actionItemIds: seq<string>)

  datatype ItemInstance = ItemInstance(
    name: string,
    id: string,
    sectionId: string,
    rootSectionId: string,
    isSelected: bool,
    isHighlighted: bool,
    isVisible: bool,
    isDirty: bool,
    isDisabled: bool,
    isCheckable: bool,
    isChecked: bool,
    shouldScrollIntoView: bool)

  datatype GroupInstance = GroupInstance(id: string, name: string, itemIds: seq<string>, visibleItemIds: seq<string>)

  datatype SectionInstance = SectionInstance(
    id: string,
    rootSectionId: string,
    itemIds: seq<string>,
    groups: seq<GroupInstance>,
    isLoading: bool,
    isVisible: bool,
    isInitialized: bool,
    isSelected: bool,
    isHighlighted: bool,
    isEmpty: bool,
    shouldExpand: bool,
    visibleItemIds: seq<string>,
    visibleGroupIds: seq<string>,
    visibleChildSectionIds: Option<seq<string>>,
    visibleDescendantSectionIds: Option<seq<string>>,
    visibleDescendantItemIds: Option<seq<string>>,
    checkable: Option<Checkable>)

  /**
   * The parts of a registered section blueprint that the middleware consults. `emptyDisplay`
   * says whether the blueprint's customization has an empty display.
   */
  datatype Blueprint = Blueprint(
    id: string,
    rootSectionId: string,
    childSectionIds: Option<seq<string>>,
    hasItemBlueprint: bool,
    emptyDisplay: bool)

  /** The child sections a blueprint names; an absent list has none. */
  function Children(bp: Blueprint): seq<string> {
    bp.childSectionIds.GetOr([])
  }

  datatype NavigatorInstanceState = NavigatorInstanceState(
    sectionInstanceMap: Record<SectionInstance>,
    itemInstanceMap: Record<ItemInstance>)
}
