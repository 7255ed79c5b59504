/**
 * The bottom navigation bar defined in src/components/layout/Header.jsx (the
 * component is named BottomNavbar): it hides on scroll with threshold 70,
 * toggles a buyer/seller mode, and renders one of three profile sections.
 */
module BottomNavbar {
  import opened Wrappers
  import opened Session
  import opened ScrollVisibility

  /** `navbarHeightThreshold`. */
  const NavbarHeightThreshold: int := 70

  class Navbar {
    var isVisible: bool
    var lastScrollTop: int
    var isSellerMode: bool

    ghost predicate Valid()
      reads this
    {
      lastScrollTop >= 0
    }

    /** The initial `useState` values. */
    constructor ()
      ensures Valid()
      ensures isVisible && lastScrollTop == 0 && !isSellerMode
    {
      isVisible, lastScrollTop, isSellerMode := true, 0, false;
    }

    /** `handleScroll`: the shared scroll rule with threshold 70. */
    method HandleScroll(scrollTop: int)
      requires Valid()
      modifies this
      ensures Valid()
      ensures ScrollState(isVisible, lastScrollTop)
           == Step(ScrollState(old(isVisible), old(lastScrollTop)), scrollTop, NavbarHeightThreshold)
      ensures isSellerMode == old(isSellerMode)
    {
      var next := Step(ScrollState(isVisible, lastScrollTop), scrollTop, NavbarHeightThreshold);
      isVisible := next.visible;
      lastScrollTop := next.lastScrollTop;
    }

    /** The mode button's `onClick`. */
    method ToggleSellerMode()
      requires Valid()
      modifies this
      ensures Valid()
      ensures isSellerMode == !old(isSellerMode)
      ensures isVisible == old(isVisible) && lastScrollTop == old(lastScrollTop)
    {
      isSellerMode := !isSellerMode;
    }

    /** The mode button's text. */
    function ModeLabel(): (caption: string)
      reads this
      ensures caption == "For Sellers" <==> isSellerMode
      ensures caption == "For Buyers" <==> !isSellerMode
    {
      if isSellerMode then "For Sellers" else "For Buyers"
    }
  }

  /** What the profile link shows: the session's image, or the generic user icon. */
  datatype Avatar = ProfileImage(src: string) | UserIcon

  datatype MenuEntry = MenuEntry(text: string, route: string)

  /** The three things `renderProfileSection` can return. */
  datatype ProfileSection =
    | LoadingPlaceholder
    | ProfileLink(href: string, avatar: Avatar)
    | UserMenu(entries: seq<MenuEntry>)

  /**
   * `renderProfileSection`. `userImage` is `session.user?.image`, where an
   * empty string is falsy and so shows the icon.
   */
  function RenderProfileSection(status: AuthStatus, userImage: Option<string>): (r: ProfileSection)
    ensures r.LoadingPlaceholder? <==> status == Loading
    ensures r.ProfileLink? <==> status == Authenticated
    ensures r.UserMenu? <==> status == Unauthenticated
    ensures r.ProfileLink? ==> r.href == "/profile"
    ensures r.ProfileLink? ==> (r.avatar.ProfileImage? <==> userImage.Some? && userImage.value != "")
    ensures r.ProfileLink? && r.avatar.ProfileImage? ==> userImage == Some(r.avatar.src)
    ensures r.UserMenu? ==> r.entries == [MenuEntry("Login", "/login"), MenuEntry("Sign Up", "/signup")]
  {
    match status
    case Loading => LoadingPlaceholder
    case Authenticated =>
      ProfileLink("/profile", if userImage.Some? && userImage.value != "" then ProfileImage(userImage.value) else UserIcon)
    case Unauthenticated => UserMenu([MenuEntry("Login", "/login"), MenuEntry("Sign Up", "/signup")])
  }

  /** Pressing the mode button twice restores the mode and its label. */
  method ToggleTwice(n: Navbar)
    requires n.Valid()
    modifies n
    ensures n.Valid()
    ensures n.isSellerMode == old(n.isSellerMode)
  {
    n.ToggleSellerMode();
    n.ToggleSellerMode();
  }
}
