/** The navigation sidebar: eight items shown as a desktop rail and as a mobile
    slide-in menu, the open/closed state of the mobile menu with its body-scroll lock,
    and the "active" and "hovered" highlights of the items. */
module Sidebar {

  import opened Wrappers
  import App

  /** A navigation item: its section id and the label it shows (the icon is presentation). */
  datatype NavItem = NavItem(id: string, caption: string)

  const NavigationItems: seq<NavItem> := [
    NavItem("home", "Home"),
    NavItem("about", "About"),
    NavItem("resume", "Resume"),
    NavItem("skills", "Skills"),
    NavItem("certificates", "Certificates"),
    NavItem("projects", "Projects"),
    NavItem("publications", "Publications"),
    NavItem("contact", "Contact")
  ]

  /** The value of `document.body.style.overflow` while the menu is open or closed. */
  const LockedOverflow := "hidden"
  const FreeOverflow := ""

  /** Widths and paddings of a desktop item, in pixels. */
  const HoveredMinWidth := 140
  const RestingMinWidth := 56
  const HoveredPadding := 20
  const RestingPadding := 0

  function Ids(items: seq<NavItem>): (r: seq<string>)
    ensures |r| == |items|
    ensures forall i :: 0 <= i < |items| ==> r[i] == items[i].id
  {
    seq(|items|, i requires 0 <= i < |items| => items[i].id)
  }

  /** The sidebar's items are exactly the sections the scroll tracker examines, in the
      same order. */
  lemma NavigationMatchesSections()
    ensures Ids(NavigationItems) == App.SectionIds
  {
  }

  /** No id occurs twice. */
  predicate DistinctIds(items: seq<NavItem>) {
    forall i, j :: 0 <= i < j < |items| ==> items[i].id != items[j].id
  }

  lemma NavigationIdsDistinct()
    ensures DistinctIds(NavigationItems)
  {
  }

  /** `isActive`: the item is the active section; then no item with another id is. */
  predicate IsActive(item: NavItem, activeSection: string)
    ensures IsActive(item, activeSection) ==>
      forall other: NavItem :: other.id != item.id ==> other.id != activeSection
  {
    activeSection == item.id
  }

  /** `isHovered`: the item is the hovered one; nothing is hovered once the mouse left. */
  predicate IsHovered(item: NavItem, hoveredItem: Option<string>)
    ensures hoveredItem.None? ==> !IsHovered(item, hoveredItem)
    ensures IsHovered(item, hoveredItem) ==>
      forall other: NavItem :: other.id != item.id ==> hoveredItem != Some(other.id)
  {
    hoveredItem == Some(item.id)
  }

  /** The number of items carrying `id`. */
  function CountId(items: seq<NavItem>, id: string): (n: nat)
    ensures n <= |items|
    ensures n == 0 <==> forall i :: 0 <= i < |items| ==> items[i].id != id
  {
    if items == [] then 0
    else (if items[0].id == id then 1 else 0) + CountId(items[1..], id)
  }

  /** With distinct ids, no id is carried by more than one item. */
  lemma {:induction false} DistinctIdsCountAtMostOne(items: seq<NavItem>, id: string)
    requires DistinctIds(items)
    ensures CountId(items, id) <= 1
  {
    if items != [] {
      DistinctIdsCountAtMostOne(items[1..], id);
      if items[0].id == id {
        assert forall i :: 0 <= i < |items[1..]| ==> items[1..][i].id == items[i + 1].id;
      }
    }
  }

  /** The number of items drawn hovered. */
  function HoveredCount(items: seq<NavItem>, hoveredItem: Option<string>): (n: nat) {
    match hoveredItem
    case None => 0
    case Some(id) => CountId(items, id)
  }

  /** Whatever the active section, at most one item carries its id and so is
      highlighted, and exactly one when it is a listed section. */
  lemma {:induction false} OneActiveItem(activeSection: string)
    ensures CountId(NavigationItems, activeSection) <= 1
    ensures activeSection in App.SectionIds ==> CountId(NavigationItems, activeSection) == 1
  {
    NavigationIdsDistinct();
    DistinctIdsCountAtMostOne(NavigationItems, activeSection);
    NavigationMatchesSections();
    if activeSection in App.SectionIds {
      var k :| 0 <= k < |App.SectionIds| && App.SectionIds[k] == activeSection;
      assert NavigationItems[k].id == activeSection;
    }
  }

  /** At most one item is hovered, and none once the mouse has left. */
  lemma OneHoveredItem(hoveredItem: Option<string>)
    ensures HoveredCount(NavigationItems, hoveredItem) <= 1
    ensures hoveredItem.None? ==> HoveredCount(NavigationItems, hoveredItem) == 0
  {
    if hoveredItem.Some? {
      NavigationIdsDistinct();
      DistinctIdsCountAtMostOne(NavigationItems, hoveredItem.value);
    }
  }

  /** How a desktop item is drawn. */
  datatype ItemStyle = ItemStyle(minWidth: int, paddingX: int, showsLabel: bool, highlighted: bool)

  /** The style of a desktop item: widened, padded and labelled exactly while hovered,
      highlighted exactly while active. */
  function StyleOf(item: NavItem, activeSection: string, hoveredItem: Option<string>): (r: ItemStyle)
    ensures r.showsLabel <==> hoveredItem == Some(item.id)
    ensures r.minWidth == HoveredMinWidth <==> r.showsLabel
    ensures r.minWidth == RestingMinWidth <==> !r.showsLabel
    ensures r.paddingX == (if r.showsLabel then HoveredPadding else RestingPadding)
    ensures r.highlighted <==> activeSection == item.id
  {
    var hovered := IsHovered(item, hoveredItem);
    ItemStyle(if hovered then HoveredMinWidth else RestingMinWidth,
              if hovered then HoveredPadding else RestingPadding,
              hovered,
              IsActive(item, activeSection))
  }

  /** The overflow style the scroll-lock effect writes for a menu state. */
  function OverflowFor(isMobileMenuOpen: bool): (r: string)
    ensures r == LockedOverflow <==> isMobileMenuOpen
    ensures !isMobileMenuOpen ==> r == FreeOverflow
  {
    if isMobileMenuOpen then LockedOverflow else FreeOverflow
  }

  /** The sidebar's state and the document state it touches. */
  class SidebarState {
    var isMobileMenuOpen: bool
    var hoveredItem: Option<string>
    /** `document.body.style.overflow`. */
    var bodyOverflow: string
    /** The ids passed to `onSectionClick`, oldest first. */
    var navigated: seq<string>

    /** The scroll lock agrees with the menu, and only a listed item can be hovered. */
    ghost predicate Valid()
      reads this
    {
      && bodyOverflow == OverflowFor(isMobileMenuOpen)
      && (hoveredItem.Some? ==> hoveredItem.value in Ids(NavigationItems))
    }

    constructor ()
      ensures Valid()
      ensures !isMobileMenuOpen && hoveredItem == None && bodyOverflow == FreeOverflow
      ensures navigated == []
    {
      isMobileMenuOpen := false;
      hoveredItem := None;
      bodyOverflow := FreeOverflow;
      navigated := [];
    }

    /** The scroll-lock effect, run after the menu state changes. */
    method LockBodyScroll()
      modifies this`bodyOverflow
      ensures bodyOverflow == OverflowFor(isMobileMenuOpen)
    {
      if isMobileMenuOpen {
        bodyOverflow := LockedOverflow;
      } else {
        bodyOverflow := FreeOverflow;
      }
    }

    /** `handleClick` for the item at `index`, from the desktop rail or the mobile menu:
        navigate to it and close the menu. */
    method HandleClick(index: nat)
      requires Valid() && index < |NavigationItems|
      modifies this
      ensures Valid()
      ensures navigated == old(navigated) + [NavigationItems[index].id]
      ensures !isMobileMenuOpen && bodyOverflow == FreeOverflow
      ensures hoveredItem == old(hoveredItem)
    {
      navigated := navigated + [NavigationItems[index].id];
      isMobileMenuOpen := false;
      LockBodyScroll();
    }

    /** The hamburger button flips the menu. */
    method ToggleMenu()
      requires Valid()
      modifies this
      ensures Valid()
      ensures isMobileMenuOpen == !old(isMobileMenuOpen)
      ensures bodyOverflow == OverflowFor(isMobileMenuOpen)
      ensures hoveredItem == old(hoveredItem) && navigated == old(navigated)
    {
      isMobileMenuOpen := !isMobileMenuOpen;
      LockBodyScroll();
    }

    /** A click on the backdrop closes the menu. */
    method BackdropClick()
      requires Valid()
      modifies this
      ensures Valid()
      ensures !isMobileMenuOpen && bodyOverflow == FreeOverflow
      ensures hoveredItem == old(hoveredItem) && navigated == old(navigated)
    {
      isMobileMenuOpen := false;
      LockBodyScroll();
    }

    /** The mouse enters the desktop item at `index`. */
    method MouseEnter(index: nat)
      requires Valid() && index < |NavigationItems|
      modifies this
      ensures Valid()
      ensures hoveredItem == Some(NavigationItems[index].id)
      ensures isMobileMenuOpen == old(isMobileMenuOpen) && bodyOverflow == old(bodyOverflow)
      ensures navigated == old(navigated)
    {
      hoveredItem := Some(NavigationItems[index].id);
    }

    /** The mouse leaves a desktop item. */
    method MouseLeave()
      requires Valid()
      modifies this
      ensures Valid()
      ensures hoveredItem == None
      ensures isMobileMenuOpen == old(isMobileMenuOpen) && bodyOverflow == old(bodyOverflow)
      ensures navigated == old(navigated)
    {
      hoveredItem := None;
    }
  }
}
