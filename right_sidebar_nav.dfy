/**
 * The navigation entries of RightSidebar: which of them the expanded and the
 * collapsed sidebar show for a session status, and when the Login and Sign Up
 * buttons appear.
 */
module RightSidebarNav {
  import opened Session

  /** A navigation entry (`name` is the source's `label`); a missing `requiresAuth` reads as false. */
  datatype NavItem = NavItem(href: string, name: string, requiresAuth: bool)

  const Cart: NavItem := NavItem("/cart", "Cart", false)
  const Wishlist: NavItem := NavItem("/wishlist", "Wishlist", true)
  const Shopping: NavItem := NavItem("/products", "Shopping", false)
  const YourOrders: NavItem := NavItem("/orders", "Your Orders", true)
  const Customization: NavItem := NavItem("/settings/customization", "Customization", true)
  const Feedback: NavItem := NavItem("/feedback", "Feedback", false)

  /** `navItems`, in the order the sidebar lists them. */
  const NavItems: seq<NavItem> := [Cart, Wishlist, Shopping, YourOrders, Customization, Feedback]

  /** The number of entries the collapsed sidebar draws from. */
  const CollapsedSlots: nat := 4

  /** An entry is hidden when `item.requiresAuth && status !== "authenticated"`. */
  predicate IsShown(item: NavItem, status: AuthStatus): (r: bool)
    ensures status == Authenticated ==> r
    ensures r <==> !item.requiresAuth || status == Authenticated
  {
    !(item.requiresAuth && status != Authenticated)
  }

  /** The entries `navItems.map(...)` renders in the expanded sidebar. */
  function VisibleItems(items: seq<NavItem>, status: AuthStatus): (r: seq<NavItem>)
    ensures |r| <= |items|
  {
    if items == [] then []
    else (if IsShown(items[0], status) then [items[0]] else []) + VisibleItems(items[1..], status)
  }

  /** An entry is listed exactly when it is in `navItems` and needs no session or the user is authenticated. */
  lemma {:induction false} VisibleItemsMembers(items: seq<NavItem>, status: AuthStatus, x: NavItem)
    ensures x in VisibleItems(items, status) <==> x in items && (!x.requiresAuth || status == Authenticated)
  {
    if items != [] {
      VisibleItemsMembers(items[1..], status, x);
      assert items == [items[0]] + items[1..];
    }
  }

  lemma VisibleItemsCons(item: NavItem, rest: seq<NavItem>, status: AuthStatus)
    ensures VisibleItems([item] + rest, status) == (if IsShown(item, status) then [item] else []) + VisibleItems(rest, status)
  {
  }

  /**
   * The expanded list keeps the order of `navItems`: filtering a list made of
   * two parts gives the shown entries of the first part, then those of the second.
   */
  lemma {:induction false} VisibleItemsKeepOrder(a: seq<NavItem>, b: seq<NavItem>, status: AuthStatus)
    ensures VisibleItems(a + b, status) == VisibleItems(a, status) + VisibleItems(b, status)
  {
    if a == [] {
      assert a + b == b;
    } else {
      assert a + b == [a[0]] + (a[1..] + b);
      VisibleItemsCons(a[0], a[1..] + b, status);
      VisibleItemsKeepOrder(a[1..], b, status);
      assert a == [a[0]] + a[1..];
      VisibleItemsCons(a[0], a[1..], status);
    }
  }

  /** A signed-in user sees every entry. */
  lemma {:induction false} AuthenticatedSeesAll(items: seq<NavItem>)
    ensures VisibleItems(items, Authenticated) == items
  {
    if items != [] {
      AuthenticatedSeesAll(items[1..]);
    }
  }

  /** Without a session (or while it loads) the expanded sidebar lists Cart, Shopping and Feedback, in that order. */
  lemma UnauthenticatedSeesPublicItems(status: AuthStatus)
    requires status != Authenticated
    ensures VisibleItems(NavItems, status) == [Cart, Shopping, Feedback]
  {
    VisibleItemsCons(Feedback, [], status);
    VisibleItemsCons(Customization, [Feedback], status);
    VisibleItemsCons(YourOrders, [Customization, Feedback], status);
    VisibleItemsCons(Shopping, [YourOrders, Customization, Feedback], status);
    VisibleItemsCons(Wishlist, [Shopping, YourOrders, Customization, Feedback], status);
    VisibleItemsCons(Cart, [Wishlist, Shopping, YourOrders, Customization, Feedback], status);
  }

  /** `navItems.slice(0, 4)` filtered by the same rule, as the collapsed sidebar shows them. */
  function CollapsedItems(items: seq<NavItem>, status: AuthStatus): (r: seq<NavItem>)
    ensures |r| <= CollapsedSlots
  {
    VisibleItems(items[..if |items| < CollapsedSlots then |items| else CollapsedSlots], status)
  }

  /** The collapsed sidebar shows an entry exactly when it is one of the first four and passes the same rule. */
  lemma CollapsedItemsMembers(items: seq<NavItem>, status: AuthStatus, x: NavItem)
    ensures x in CollapsedItems(items, status) <==>
      x in items[..if |items| < CollapsedSlots then |items| else CollapsedSlots] && IsShown(x, status)
  {
    VisibleItemsMembers(items[..if |items| < CollapsedSlots then |items| else CollapsedSlots], status, x);
  }

  lemma CollapsedIsFilteredPrefix(items: seq<NavItem>, status: AuthStatus)
    requires |items| >= CollapsedSlots
    ensures CollapsedItems(items, status) == VisibleItems(items[..CollapsedSlots], status)
  {
  }

  /** Without a session the collapsed sidebar shows Cart and Shopping; with one, the first four entries. */
  lemma CollapsedNavItems(status: AuthStatus)
    ensures status != Authenticated ==> CollapsedItems(NavItems, status) == [Cart, Shopping]
    ensures status == Authenticated ==> CollapsedItems(NavItems, status) == [Cart, Wishlist, Shopping, YourOrders]
  {
    var first4 := NavItems[..CollapsedSlots];
    assert first4 == [Cart, Wishlist, Shopping, YourOrders];
    CollapsedIsFilteredPrefix(NavItems, status);
    FirstFourFiltered(status);
  }

  lemma FirstFourFiltered(status: AuthStatus)
    ensures status != Authenticated ==> VisibleItems([Cart, Wishlist, Shopping, YourOrders], status) == [Cart, Shopping]
    ensures status == Authenticated ==>
      VisibleItems([Cart, Wishlist, Shopping, YourOrders], status) == [Cart, Wishlist, Shopping, YourOrders]
  {
    VisibleItemsCons(YourOrders, [], status);
    VisibleItemsCons(Shopping, [YourOrders], status);
    VisibleItemsCons(Wishlist, [Shopping, YourOrders], status);
    VisibleItemsCons(Cart, [Wishlist, Shopping, YourOrders], status);
  }

  /**
   * The Login and Sign Up buttons belong to the expanded sidebar and show only
   * once the session is known to be absent. The caller passes as `expanded` the
   * value of `Sidebar.ExpandableSidebar.IsEffectivelyExpanded()` for the right sidebar.
   */
  function ShowsAuthButtons(expanded: bool, status: AuthStatus): (r: bool)
    ensures r <==> expanded && status == Unauthenticated
  {
    expanded && status != Authenticated && status != Loading
  }
}
