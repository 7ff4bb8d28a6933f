/** The navigation sidebar: which links a role sees and which link is
    highlighted for the current path. */
module Layout {
  import opened Wrappers
  import opened SeqUtil
  import opened Storage

  datatype NavItem = NavItem(to: string, navLabel: string, roles: Option<seq<Role>>)

  /** The sidebar's items, in declaration order. */
  const NavItems: seq<NavItem> := [
    NavItem("/", "Inicio", Some([Admin, Sucursal])),
    NavItem("/admin/locations", "Sucursales", Some([Admin])),
    NavItem("/admin/orders", "Pedidos", Some([Admin])),
    NavItem("/admin/orders/aprobaciones", "Aprobar pedidos", Some([Admin])),
    NavItem("/admin/sales", "Ventas", Some([Admin])),
    NavItem("/admin/reports", "Reportes", Some([Admin])),
    NavItem("/admin/users", "Usuarios", Some([Admin])),
    NavItem("/sucursal/stock", "Mi stock", Some([Sucursal])),
    NavItem("/sucursal/orders", "Mis pedidos", Some([Sucursal])),
    NavItem("/sucursal/receive", "Recibir pedido", Some([Sucursal])),
    NavItem("/sucursal/sales", "Registrar venta", Some([Sucursal]))
  ]

  predicate StartsWith(s: string, prefix: string) {
    |prefix| <= |s| && s[..|prefix|] == prefix
  }

  /** NavLink's highlight: the exact path, or any path under a link other
      than the root. */
  predicate IsActive(pathname: string, to: string) {
    pathname == to || (to != "/" && StartsWith(pathname, to))
  }

  /** The root link is highlighted on the root path only. */
  lemma RootActiveOnlyOnRoot(pathname: string)
    ensures IsActive(pathname, "/") <==> pathname == "/"
  {
  }

  /** Any other link is highlighted exactly on the paths that start with it. */
  lemma ActiveIsPrefix(pathname: string, to: string)
    requires to != "/"
    ensures IsActive(pathname, to) <==> StartsWith(pathname, to)
  {
    if pathname == to {
      assert pathname[..|to|] == to;
    }
  }

  /** Both order links are highlighted on the approvals page, because the
      check is a prefix match. */
  lemma ApprovalsHighlightsOrders()
    ensures IsActive(NavItems[3].to, NavItems[3].to)
    ensures IsActive(NavItems[3].to, NavItems[2].to)
  {
    assert NavItems[3].to[..|NavItems[2].to|] == NavItems[2].to;
  }

  /** An item without roles is always shown; without a role every item is
      shown; otherwise the item's roles must include the role. */
  predicate Visible(it: NavItem, role: Option<Role>) {
    it.roles.None? || role.None? || role.value in it.roles.value
  }

  function VisibleTo(role: Option<Role>): NavItem -> bool {
    it => Visible(it, role)
  }

  /** visibleItems. */
  function VisibleItems(role: Option<Role>): seq<NavItem> {
    Filter(NavItems, VisibleTo(role))
  }

  /** The visible items are the items the role may see, in declaration order. */
  lemma VisibleItemsSpec(role: Option<Role>)
    ensures IsSubseq(VisibleItems(role), NavItems)
    ensures forall it :: it in VisibleItems(role) <==> it in NavItems && Visible(it, role)
  {
    FilterIsSubseq(NavItems, VisibleTo(role));
    forall it ensures it in VisibleItems(role) <==> it in NavItems && Visible(it, role) {
      FilterMembership(NavItems, VisibleTo(role), it);
    }
  }

  /** With no role every item is shown. */
  lemma NoRoleSeesAll()
    ensures VisibleItems(None) == NavItems
  {
    NoRoleKeepsAll(NavItems);
  }

  lemma NoRoleKeepsAll(items: seq<NavItem>)
    ensures Filter(items, VisibleTo(None)) == items
  {
    FilterAll(items, VisibleTo(None));
  }

  /** Which items carry which role. */
  lemma ItemRoles()
    ensures |NavItems| == 11
    ensures NavItems[0].roles == Some([Admin, Sucursal])
    ensures forall i :: 1 <= i < 7 ==> NavItems[i].roles == Some([Admin])
    ensures forall i :: 7 <= i < 11 ==> NavItems[i].roles == Some([Sucursal])
  {
  }

  /** A filter that keeps none of its input returns nothing. */
  lemma FilterNone<T>(s: seq<T>, p: T -> bool)
    requires forall i :: 0 <= i < |s| ==> !p(s[i])
    ensures Filter(s, p) == []
  {
    var r := Filter(s, p);
    if r != [] {
      FilterMembership(s, p, r[0]);
    }
  }

  /** The role layout of the sidebar: the shared root, six admin links,
      then four branch links. */
  ghost predicate RoleLayout(items: seq<NavItem>) {
    |items| == 11 &&
    items[0].roles == Some([Admin, Sucursal]) &&
    (forall i :: 1 <= i < 7 ==> items[i].roles == Some([Admin])) &&
    (forall i :: 7 <= i < 11 ==> items[i].roles == Some([Sucursal]))
  }

  lemma AdminFilter(items: seq<NavItem>)
    requires RoleLayout(items)
    ensures Filter(items, VisibleTo(Some(Admin))) == items[..7]
  {
    var p := VisibleTo(Some(Admin));
    var a, b := items[..7], items[7..];
    assert a + b == items;
    FilterConcat(a, b, p);
    assert forall i :: 0 <= i < |a| ==> p(a[i]);
    FilterAll(a, p);
    assert forall i :: 0 <= i < |b| ==> !p(b[i]);
    FilterNone(b, p);
  }

  lemma SucursalFilterTail(items: seq<NavItem>)
    requires RoleLayout(items)
    ensures Filter(items[1..], VisibleTo(Some(Sucursal))) == items[7..]
  {
    var p := VisibleTo(Some(Sucursal));
    var b, c := items[1..7], items[7..];
    assert b + c == items[1..];
    FilterConcat(b, c, p);
    assert forall i :: 0 <= i < |b| ==> !p(b[i]);
    FilterNone(b, p);
    assert forall i :: 0 <= i < |c| ==> p(c[i]);
    FilterAll(c, p);
  }

  lemma SucursalFilter(items: seq<NavItem>)
    requires RoleLayout(items)
    ensures Filter(items, VisibleTo(Some(Sucursal))) == items[..1] + items[7..]
  {
    var p := VisibleTo(Some(Sucursal));
    var a := items[..1];
    assert a + items[1..] == items;
    FilterConcat(a, items[1..], p);
    assert p(a[0]);
    FilterAll(a, p);
    SucursalFilterTail(items);
  }

  /** The admin sees the root and the six admin links. */
  lemma AdminItems()
    ensures VisibleItems(Some(Admin)) == NavItems[..7]
    ensures |VisibleItems(Some(Admin))| == 7
  {
    ItemRoles();
    AdminFilter(NavItems);
  }

  /** A branch user sees the root and the four branch links. */
  lemma SucursalItems()
    ensures VisibleItems(Some(Sucursal)) == NavItems[..1] + NavItems[7..]
    ensures |VisibleItems(Some(Sucursal))| == 5
  {
    ItemRoles();
    SucursalFilter(NavItems);
  }

  /** logout: the session is cleared and the user is sent to the login page. */
  method Logout(store: TokenStorage) returns (target: string)
    modifies store
    ensures store.slot == None && target == "/login"
  {
    store.Clear();
    target := "/login";
  }
}
