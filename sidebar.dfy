/**
 * The expandable sidebar state machine that LeftSidebar and RightSidebar each
 * carry: scroll visibility, a manual expand flag toggled by the button, and a
 * hover flag set by a timer that mouse-enter schedules. The 500 ms delay is
 * modelled by the separate event `HoverTimerFires`.
 */
module Sidebar {
  import opened ScrollVisibility

  /** SCROLL_VISIBILITY_THRESHOLD of LeftSidebar. */
  const LeftSidebarThreshold: int := 50
  /** SCROLL_VISIBILITY_THRESHOLD of RightSidebar. */
  const RightSidebarThreshold: int := 50

  /** The number of sellers the expanded left sidebar lists. */
  const ListedSellers: nat := 3

  class ExpandableSidebar {
    const threshold: int
    var isManuallyExpanded: bool
    var isHoverExpanded: bool
    /** A hover timer is scheduled and not cleared. */
    var hoverTimerPending: bool
    var isScrollVisible: bool
    var lastScrollTop: int

    /**
     * The remembered offset is never negative, and in this model hover and
     * manual expansion never hold together (every timer is cleared by the toggle
     * and reads the current manual flag when it fires).
     */
    ghost predicate Valid()
      reads this
    {
      lastScrollTop >= 0 && !(isManuallyExpanded && isHoverExpanded)
    }

    /** The initial `useState` values. */
    constructor (threshold: int)
      ensures Valid()
      ensures this.threshold == threshold
      ensures !isManuallyExpanded && !isHoverExpanded && !hoverTimerPending
      ensures isScrollVisible && lastScrollTop == 0
    {
      this.threshold := threshold;
      isManuallyExpanded, isHoverExpanded, hoverTimerPending := false, false, false;
      isScrollVisible, lastScrollTop := true, 0;
    }

    /** The sidebar is wide only while it is on screen and expanded one way or the other. */
    function IsEffectivelyExpanded(): (r: bool)
      reads this
      ensures r ==> isScrollVisible
      ensures r ==> isManuallyExpanded || isHoverExpanded
      ensures !r && isScrollVisible ==> !isManuallyExpanded && !isHoverExpanded
    {
      isScrollVisible && (isManuallyExpanded || isHoverExpanded)
    }

    /** `handlePageScroll`: the shared scroll rule with this sidebar's threshold. */
    method HandlePageScroll(scrollTop: int)
      requires Valid()
      modifies this
      ensures Valid()
      ensures ScrollState(isScrollVisible, lastScrollTop)
           == Step(ScrollState(old(isScrollVisible), old(lastScrollTop)), scrollTop, threshold)
      ensures isManuallyExpanded == old(isManuallyExpanded) && isHoverExpanded == old(isHoverExpanded)
      ensures hoverTimerPending == old(hoverTimerPending)
    {
      var next := Step(ScrollState(isScrollVisible, lastScrollTop), scrollTop, threshold);
      isScrollVisible := next.visible;
      lastScrollTop := next.lastScrollTop;
    }

    /** `handleMouseEnter`: clears a pending timer, then schedules one only while visible. */
    method HandleMouseEnter()
      requires Valid()
      modifies this
      ensures Valid()
      ensures hoverTimerPending == old(isScrollVisible)
      ensures isManuallyExpanded == old(isManuallyExpanded) && isHoverExpanded == old(isHoverExpanded)
      ensures isScrollVisible == old(isScrollVisible) && lastScrollTop == old(lastScrollTop)
    {
      hoverTimerPending := false;
      if !isScrollVisible {
        return;
      }
      hoverTimerPending := true;
    }

    /** The scheduled timer fires: it sets hover expansion, unless the sidebar is manually expanded. */
    method HoverTimerFires()
      requires Valid()
      modifies this
      ensures Valid()
      ensures !hoverTimerPending
      ensures isHoverExpanded == (old(isHoverExpanded) || (old(hoverTimerPending) && !isManuallyExpanded))
      ensures isManuallyExpanded == old(isManuallyExpanded)
      ensures isScrollVisible == old(isScrollVisible) && lastScrollTop == old(lastScrollTop)
    {
      if hoverTimerPending {
        hoverTimerPending := false;
        if !isManuallyExpanded {
          isHoverExpanded := true;
        }
      }
    }

    /** `handleMouseLeave`: clears the timer and hover expansion. */
    method HandleMouseLeave()
      requires Valid()
      modifies this
      ensures Valid()
      ensures !hoverTimerPending && !isHoverExpanded
      ensures isManuallyExpanded == old(isManuallyExpanded)
      ensures isScrollVisible == old(isScrollVisible) && lastScrollTop == old(lastScrollTop)
    {
      hoverTimerPending := false;
      isHoverExpanded := false;
    }

    /** `toggleManualExpand`: flips the manual flag, clears hover expansion and the timer. */
    method ToggleManualExpand()
      requires Valid()
      modifies this
      ensures Valid()
      ensures isManuallyExpanded == !old(isManuallyExpanded)
      ensures !isHoverExpanded && !hoverTimerPending
      ensures isScrollVisible == old(isScrollVisible) && lastScrollTop == old(lastScrollTop)
    {
      isManuallyExpanded := !isManuallyExpanded;
      isHoverExpanded := false;
      hoverTimerPending := false;
    }
  }

  /** The state LeftSidebar starts in. */
  method NewLeftSidebar() returns (s: ExpandableSidebar)
    ensures fresh(s) && s.Valid()
    ensures s.threshold == LeftSidebarThreshold
    ensures !s.isManuallyExpanded && !s.isHoverExpanded && !s.hoverTimerPending
    ensures s.isScrollVisible && s.lastScrollTop == 0
  {
    s := new ExpandableSidebar(LeftSidebarThreshold);
  }

  /** The state RightSidebar starts in: the same machine with the same threshold. */
  method NewRightSidebar() returns (s: ExpandableSidebar)
    ensures fresh(s) && s.Valid()
    ensures s.threshold == RightSidebarThreshold == LeftSidebarThreshold
    ensures !s.isManuallyExpanded && !s.isHoverExpanded && !s.hoverTimerPending
    ensures s.isScrollVisible && s.lastScrollTop == 0
  {
    s := new ExpandableSidebar(RightSidebarThreshold);
  }

  /** Pressing the toggle twice restores the manual flag and leaves hover expansion off. */
  method ToggleTwice(s: ExpandableSidebar)
    requires s.Valid()
    modifies s
    ensures s.Valid()
    ensures s.isManuallyExpanded == old(s.isManuallyExpanded) && !s.isHoverExpanded
  {
    s.ToggleManualExpand();
    s.ToggleManualExpand();
  }

  /** Entering while hidden by scroll schedules nothing, so a later timer event cannot expand the sidebar. */
  method EnterWhileHidden(s: ExpandableSidebar)
    requires s.Valid() && !s.isScrollVisible && !s.isHoverExpanded
    modifies s
    ensures s.Valid()
    ensures !s.isHoverExpanded && !s.IsEffectivelyExpanded()
  {
    s.HandleMouseEnter();
    s.HoverTimerFires();
  }

  /** `mockSellers.slice(0, 3)`: the first three sellers, or all of them when there are fewer. */
  function ExpandedSellers<T>(sellers: seq<T>): (r: seq<T>)
    ensures |r| <= ListedSellers
    ensures |r| == if |sellers| < ListedSellers then |sellers| else ListedSellers
    ensures r <= sellers
  {
    if |sellers| <= ListedSellers then sellers else sellers[..ListedSellers]
  }
}
