/**
  Role-based navigation: `getNavItems(role)` filters a fixed item table by
  the items' role lists and sorts the survivors by a fixed order of hrefs.
  For an administrator the admin table is first merged in, de-duplicated by
  href the way a `Map` keyed by href does it.
 */
module Navigation {
  import opened Wrappers
  import opened Domain

  /** A navigation entry; `roles == None` means every signed-in or anonymous user may see it. */
  datatype NavItem = NavItem(title: string, href: string, icon: Icon, roles: Option<seq<UserRole>>)

  const DashboardItem := NavItem("Dashboard", "/dashboard", LayoutDashboard, None)
  const RegisterItem := NavItem("Register Batch", "/batches/register", PackagePlus, Some([Admin, Manufacturer]))
  const ManageItem := NavItem("Manage Batches", "/batches", Package, Some([Admin, Manufacturer, Distributor]))
  const VerifyItem := NavItem("Verify Batch", "/verify-batch", SearchCheck, None)
  const AlertsItem := NavItem("Alerts & AI", "/alerts", AlertCircle, Some([Admin, Manufacturer, Distributor]))
  const UsersItem := NavItem("User Management", "/admin/users", Users, Some([Admin]))
  const AnalyticsItem := NavItem("System Analytics", "/admin/analytics", BarChart3, Some([Admin]))
  const SettingsItem := NavItem("Settings", "/settings", Settings, Some([Admin]))

  const BaseItems: seq<NavItem> := [DashboardItem, RegisterItem, ManageItem, VerifyItem, AlertsItem]
  const AdminItems: seq<NavItem> := [UsersItem, AnalyticsItem, SettingsItem]

  /** The fixed display order of hrefs. */
  const Order: seq<string> :=
    ["/dashboard", "/batches/register", "/batches", "/verify-batch", "/alerts", "/admin/users", "/admin/analytics", "/settings"]

  // ---------------------------------------------------------------------------
  // De-duplication by href

  predicate DistinctHrefs(items: seq<NavItem>) {
    forall i, j | 0 <= i < j < |items| :: items[i].href != items[j].href
  }

  /** The position of the entry with that href, if any. */
  function IndexOfHref(acc: seq<NavItem>, href: string): (r: Option<nat>)
    ensures r.None? <==> forall i | 0 <= i < |acc| :: acc[i].href != href
    ensures r.Some? ==> r.value < |acc| && acc[r.value].href == href
  {
    if acc == [] then None
    else if acc[|acc| - 1].href == href then Some(|acc| - 1)
    else
      var r := IndexOfHref(acc[..|acc| - 1], href);
      assert forall i | 0 <= i < |acc| - 1 :: acc[..|acc| - 1][i] == acc[i];
      r
  }

  /** `map.set(item.href, item)` on a map kept as its list of values in insertion order. */
  function MapSet(acc: seq<NavItem>, item: NavItem): (r: seq<NavItem>)
    requires DistinctHrefs(acc)
    ensures DistinctHrefs(r)
    ensures |r| <= |acc| + 1
    ensures forall x | x in r :: x in acc || x == item
  {
    match IndexOfHref(acc, item.href)
    case Some(k) => acc[k := item]
    case None => acc + [item]
  }

  function Hrefs(items: seq<NavItem>): set<string> {
    set x | x in items :: x.href
  }

  /** Setting an item adds its href to the map's keys and loses none. */
  lemma MapSetHrefs(acc: seq<NavItem>, item: NavItem)
    requires DistinctHrefs(acc)
    ensures Hrefs(MapSet(acc, item)) == Hrefs(acc) + {item.href}
  {
    var r := MapSet(acc, item);
    match IndexOfHref(acc, item.href)
    case Some(k) =>
      forall h | h in Hrefs(acc) ensures h in Hrefs(r) {
        var x :| x in acc && x.href == h;
        var j :| 0 <= j < |acc| && acc[j] == x;
        if j == k { assert r[k].href == h; } else { assert r[j] == x; }
      }
      forall h | h in Hrefs(r) ensures h in Hrefs(acc) + {item.href} {
        var x :| x in r && x.href == h;
        var j :| 0 <= j < |r| && r[j] == x;
        if j != k { assert acc[j] == x; }
      }
      assert r[k] == item;
    case None =>
      assert r == acc + [item];
  }

  /**
    `Array.from(map.values())` after setting every item in turn: one entry
    per href, each an input item.
   */
  function MergeByHref(items: seq<NavItem>): (r: seq<NavItem>)
    ensures DistinctHrefs(r)
    ensures |r| <= |items|
    ensures forall x | x in r :: x in items
  {
    if items == [] then []
    else
      var init := items[..|items| - 1];
      var last := items[|items| - 1];
      assert items == init + [last];
      MapSet(MergeByHref(init), last)
  }

  /** No href is lost by the merge: its keys are exactly the input's hrefs. */
  lemma {:induction false} MergeKeepsHrefs(items: seq<NavItem>)
    ensures Hrefs(MergeByHref(items)) == Hrefs(items)
  {
    if items != [] {
      var init, last := items[..|items| - 1], items[|items| - 1];
      MergeKeepsHrefs(init);
      MapSetHrefs(MergeByHref(init), last);
      assert items == init + [last];
      assert Hrefs(items) == Hrefs(init) + {last.href};
    }
  }

  /** With hrefs already distinct, the map keeps every item in its place. */
  lemma {:induction false} MergeDistinctIsIdentity(items: seq<NavItem>)
    requires DistinctHrefs(items)
    ensures MergeByHref(items) == items
  {
    if items != [] {
      var init, last := items[..|items| - 1], items[|items| - 1];
      DistinctSplit(items);
      MergeDistinctIsIdentity(init);
      MergeFresh(init, last);
      assert init + [last] == items;
    }
  }

  /** When the rest is left as it is and the last href is new, the last item is appended. */
  lemma MergeFresh(init: seq<NavItem>, last: NavItem)
    requires DistinctHrefs(init) && MergeByHref(init) == init
    requires IndexOfHref(init, last.href).None?
    ensures MergeByHref(init + [last]) == init + [last]
  {
    var items := init + [last];
    assert items[..|items| - 1] == init;
    assert items[|items| - 1] == last;
  }

  /** Dropping the last item keeps hrefs distinct, and the last href is new to the rest. */
  lemma DistinctSplit(items: seq<NavItem>)
    requires items != [] && DistinctHrefs(items)
    ensures DistinctHrefs(items[..|items| - 1])
    ensures IndexOfHref(items[..|items| - 1], items[|items| - 1].href).None?
  {
    var init := items[..|items| - 1];
    forall i, j | 0 <= i < j < |init| ensures init[i].href != init[j].href {
      assert init[i] == items[i] && init[j] == items[j];
    }
    forall i | 0 <= i < |init| ensures init[i].href != items[|items| - 1].href {
      assert init[i] == items[i];
    }
  }

  // ---------------------------------------------------------------------------
  // Filtering

  /** `!item.roles || (role && item.roles.includes(role))`. */
  predicate Visible(item: NavItem, role: Option<UserRole>) {
    item.roles.None? || (role.Some? && role.value in item.roles.value)
  }

  /** `items.filter(item => Visible(item, role))`. */
  function FilterVisible(items: seq<NavItem>, role: Option<UserRole>): seq<NavItem> {
    if items == [] then []
    else if Visible(items[0], role) then [items[0]] + FilterVisible(items[1..], role)
    else FilterVisible(items[1..], role)
  }

  /** The filter keeps exactly the visible items and duplicates none. */
  lemma {:induction false} FilterVisibleSpec(items: seq<NavItem>, role: Option<UserRole>)
    ensures forall x :: x in FilterVisible(items, role) <==> x in items && Visible(x, role)
    ensures multiset(FilterVisible(items, role)) <= multiset(items)
  {
    if items != [] {
      FilterVisibleSpec(items[1..], role);
      assert items == [items[0]] + items[1..];
    }
  }

  // ---------------------------------------------------------------------------
  // Sorting

  /** `order.indexOf(href)`: the position in the fixed order, or -1. */
  function Rank(href: string): (r: int)
    ensures -1 <= r < |Order|
    ensures r >= 0 ==> Order[r] == href
  {
    RankFrom(href, 0)
  }

  function RankFrom(href: string, k: nat): (r: int)
    requires k <= |Order|
    ensures -1 <= r < |Order|
    ensures r >= 0 ==> k <= r && Order[r] == href
    decreases |Order| - k
  {
    if k == |Order| then -1
    else if Order[k] == href then k
    else RankFrom(href, k + 1)
  }

  /** `indexOf` gives -1 exactly for an href outside the fixed order. */
  lemma RankAbsent(href: string)
    ensures Rank(href) == -1 <==> href !in Order
  {
    RankFromAbsent(href, 0);
  }

  lemma {:induction false} RankFromAbsent(href: string, k: nat)
    requires k <= |Order|
    ensures RankFrom(href, k) == -1 <==> href !in Order[k..]
    decreases |Order| - k
  {
    if k < |Order| {
      RankFromAbsent(href, k + 1);
      assert Order[k..] == [Order[k]] + Order[k + 1..];
    }
  }

  /** The sort key of an item: the rank of its href. */
  function ItemRank(x: NavItem): int {
    Rank(x.href)
  }

  predicate SortedBy(s: seq<NavItem>, rank: NavItem -> int) {
    forall i, j | 0 <= i < j < |s| :: rank(s[i]) <= rank(s[j])
  }

  /** Insert after every element whose key is at most the new one's: the step of a stable sort. */
  function InsertBy(x: NavItem, s: seq<NavItem>, rank: NavItem -> int): (r: seq<NavItem>)
    ensures multiset(r) == multiset(s) + multiset{x}
    ensures |r| == |s| + 1
    ensures SortedBy(s, rank) ==> SortedBy(r, rank)
  {
    if s == [] then [x]
    else if rank(s[0]) <= rank(x) then
      var rest := InsertBy(x, s[1..], rank);
      assert s == [s[0]] + s[1..];
      assert SortedBy(s, rank) ==> SortedBy([s[0]] + rest, rank) by {
        if SortedBy(s, rank) {
          SortedTail(s, rank);
          InsertAfterHead(s, x, rest, rank);
        }
      }
      [s[0]] + rest
    else
      assert SortedBy(s, rank) ==> SortedBy([x] + s, rank) by {
        if SortedBy(s, rank) { InsertInFront(x, s, rank); }
      }
      [x] + s
  }

  lemma InsertAfterHead(s: seq<NavItem>, x: NavItem, rest: seq<NavItem>, rank: NavItem -> int)
    requires s != [] && SortedBy(s, rank) && rank(s[0]) <= rank(x)
    requires SortedBy(rest, rank) && multiset(rest) == multiset(s[1..]) + multiset{x}
    ensures SortedBy([s[0]] + rest, rank)
  {
    forall y | y in rest ensures rank(s[0]) <= rank(y) {
      assert y in multiset(rest);
      if y != x { HeadBelowTail(s, rank, y); }
    }
    ConsSorted(s[0], rest, rank);
  }

  lemma InsertInFront(x: NavItem, s: seq<NavItem>, rank: NavItem -> int)
    requires s != [] && SortedBy(s, rank) && rank(x) < rank(s[0])
    ensures SortedBy([x] + s, rank)
  {
    forall y | y in s ensures rank(x) <= rank(y) {
      if y != s[0] { HeadBelowTail(s, rank, y); }
    }
    ConsSorted(x, s, rank);
  }

  lemma SortedTail(s: seq<NavItem>, rank: NavItem -> int)
    requires s != [] && SortedBy(s, rank)
    ensures SortedBy(s[1..], rank)
  {
    forall i, j | 0 <= i < j < |s[1..]| ensures rank(s[1..][i]) <= rank(s[1..][j]) {
      assert s[1..][i] == s[i + 1] && s[1..][j] == s[j + 1];
    }
  }

  lemma HeadBelowTail(s: seq<NavItem>, rank: NavItem -> int, y: NavItem)
    requires s != [] && SortedBy(s, rank) && (y in s[1..] || y in multiset(s[1..]))
    ensures rank(s[0]) <= rank(y)
  {
    var k :| 0 <= k < |s[1..]| && s[1..][k] == y;
    assert s[k + 1] == y;
  }

  lemma ConsSorted(a: NavItem, s: seq<NavItem>, rank: NavItem -> int)
    requires SortedBy(s, rank) && forall y | y in s :: rank(a) <= rank(y)
    ensures SortedBy([a] + s, rank)
  {
    var r := [a] + s;
    forall i, j | 0 <= i < j < |r| ensures rank(r[i]) <= rank(r[j]) {
      assert r[j] == s[j - 1];
      if i > 0 { assert r[i] == s[i - 1]; }
    }
  }

  /** A stable sort by key, inserting the elements left to right. */
  function SortBy(s: seq<NavItem>, rank: NavItem -> int): (r: seq<NavItem>)
    ensures SortedBy(r, rank)
    ensures multiset(r) == multiset(s)
    ensures |r| == |s|
  {
    if s == [] then []
    else
      var init := s[..|s| - 1];
      assert s == init + [s[|s| - 1]];
      InsertBy(s[|s| - 1], SortBy(init, rank), rank)
  }

  /** A list already in key order is left as it is. */
  lemma {:induction false} SortSortedIsIdentity(s: seq<NavItem>, rank: NavItem -> int)
    requires SortedBy(s, rank)
    ensures SortBy(s, rank) == s
  {
    if s != [] {
      var init, last := s[..|s| - 1], s[|s| - 1];
      SortedInit(s, rank);
      SortSortedIsIdentity(init, rank);
      InsertAtEnd(last, init, rank);
      assert init + [last] == s;
    }
  }

  lemma SortedInit(s: seq<NavItem>, rank: NavItem -> int)
    requires s != [] && SortedBy(s, rank)
    ensures SortedBy(s[..|s| - 1], rank)
    ensures forall y | y in s[..|s| - 1] :: rank(y) <= rank(s[|s| - 1])
  {
    var init := s[..|s| - 1];
    forall i, j | 0 <= i < j < |init| ensures rank(init[i]) <= rank(init[j]) {
      assert init[i] == s[i] && init[j] == s[j];
    }
    forall y | y in init ensures rank(y) <= rank(s[|s| - 1]) {
      var k :| 0 <= k < |init| && init[k] == y;
      assert s[k] == y;
    }
  }

  lemma {:induction false} InsertAtEnd(x: NavItem, s: seq<NavItem>, rank: NavItem -> int)
    requires forall y | y in s :: rank(y) <= rank(x)
    ensures InsertBy(x, s, rank) == s + [x]
  {
    if s != [] {
      assert s[0] in s;
      assert forall y | y in s[1..] :: y in s;
      InsertAtEnd(x, s[1..], rank);
      assert s == [s[0]] + s[1..];
    }
  }

  // ---------------------------------------------------------------------------
  // getNavItems

  /** The table consulted for a role: for Admin, the base items without `/settings` merged with the admin items. */
  function Candidates(role: Option<UserRole>): seq<NavItem> {
    if role == Some(Admin) then
      MergeByHref(FilterOutHref(BaseItems, "/settings") + AdminItems)
    else BaseItems
  }

  function FilterOutHref(items: seq<NavItem>, href: string): (r: seq<NavItem>)
    ensures forall x :: x in r <==> x in items && x.href != href
  {
    if items == [] then []
    else
      var rest := FilterOutHref(items[1..], href);
      assert items == [items[0]] + items[1..];
      if items[0].href != href then [items[0]] + rest else rest
  }

  /**
    `getNavItems(role)`: the items of the role's table that the role may see,
    sorted by the fixed href order.
   */
  function GetNavItems(role: Option<UserRole>): seq<NavItem> {
    SortBy(FilterVisible(Candidates(role), role), ItemRank)
  }

  /**
    The result is in the fixed href order, holds exactly the items of the
    role's table that the role may see, and repeats none of them.
   */
  lemma GetNavItemsSpec(role: Option<UserRole>)
    ensures SortedBy(GetNavItems(role), ItemRank)
    ensures forall x :: x in GetNavItems(role) <==> x in Candidates(role) && Visible(x, role)
    ensures multiset(GetNavItems(role)) <= multiset(Candidates(role))
  {
    var f := FilterVisible(Candidates(role), role);
    FilterVisibleSpec(Candidates(role), role);
    var r := SortBy(f, ItemRank);
    forall x ensures x in r <==> x in f {
      assert x in r <==> x in multiset(r);
      assert x in f <==> x in multiset(f);
    }
  }

  // ---------------------------------------------------------------------------
  // Properties

  /** Filtering distributes over concatenation, so it keeps the table order. */
  lemma {:induction false} FilterVisibleAppend(a: seq<NavItem>, b: seq<NavItem>, role: Option<UserRole>)
    ensures FilterVisible(a + b, role) == FilterVisible(a, role) + FilterVisible(b, role)
  {
    if a == [] {
      assert a + b == b;
    } else {
      assert (a + b)[1..] == a[1..] + b;
      FilterVisibleAppend(a[1..], b, role);
      assert (a + b)[0] == a[0];
    }
  }

  /** The filter applied to the five base items, one decision per item. */
  lemma FilterBase(role: Option<UserRole>)
    ensures FilterVisible(BaseItems, role) ==
      Keep(DashboardItem, role) + (Keep(RegisterItem, role) + (Keep(ManageItem, role)
      + (Keep(VerifyItem, role) + Keep(AlertsItem, role))))
  {
    var s4 := [AlertsItem];
    var s3 := [VerifyItem] + s4;
    var s2 := [ManageItem] + s3;
    var s1 := [RegisterItem] + s2;
    assert BaseItems == [DashboardItem] + s1;
    FilterCons(DashboardItem, s1, role);
    FilterCons(RegisterItem, s2, role);
    FilterCons(ManageItem, s3, role);
    FilterCons(VerifyItem, s4, role);
    KeepSingleton(AlertsItem, role);
  }

  lemma FilterCons(x: NavItem, rest: seq<NavItem>, role: Option<UserRole>)
    ensures FilterVisible([x] + rest, role) == Keep(x, role) + FilterVisible(rest, role)
  {
    assert ([x] + rest)[0] == x;
    assert ([x] + rest)[1..] == rest;
  }

  function Keep(x: NavItem, role: Option<UserRole>): seq<NavItem> {
    if Visible(x, role) then [x] else []
  }

  lemma KeepSingleton(x: NavItem, role: Option<UserRole>)
    ensures FilterVisible([x], role) == Keep(x, role)
  {
    assert [x][1..] == [];
  }

  /** Every item is in the fixed order, at its position in the base-then-admin table. */
  lemma RanksOfItems()
    ensures ItemRank(DashboardItem) == 0 && ItemRank(RegisterItem) == 1 && ItemRank(ManageItem) == 2
    ensures ItemRank(VerifyItem) == 3 && ItemRank(AlertsItem) == 4 && ItemRank(UsersItem) == 5
    ensures ItemRank(AnalyticsItem) == 6 && ItemRank(SettingsItem) == 7
  {
  }

  const AllItems: seq<NavItem> :=
    [DashboardItem, RegisterItem, ManageItem, VerifyItem, AlertsItem, UsersItem, AnalyticsItem, SettingsItem]

  /** The eight items in table order are also in rank order, one rank each. */
  lemma AllItemsRanked()
    ensures AllItems == BaseItems + AdminItems
    ensures forall i | 0 <= i < |AllItems| :: ItemRank(AllItems[i]) == i
    ensures DistinctHrefs(AllItems)
    ensures SortedBy(AllItems, ItemRank)
  {
    RanksOfItems();
    assert forall i | 0 <= i < |AllItems| :: ItemRank(AllItems[i]) == i;
  }

  lemma {:induction false} FilterOutAbsent(items: seq<NavItem>, href: string)
    requires forall x | x in items :: x.href != href
    ensures FilterOutHref(items, href) == items
  {
    if items != [] {
      assert forall x | x in items[1..] :: x in items;
      FilterOutAbsent(items[1..], href);
      assert items == [items[0]] + items[1..];
    }
  }

  /** The admin table holds all eight items once each: nothing collides on href. */
  lemma AdminCandidates(role: Option<UserRole>)
    requires role == Some(Admin)
    ensures Candidates(role) == AllItems
  {
    assert forall x | x in BaseItems :: x.href != "/settings";
    FilterOutAbsent(BaseItems, "/settings");
    AllItemsRanked();
    MergeDistinctIsIdentity(AllItems);
  }

  /** Items without a role list appear for every role, and for no role at all. */
  lemma UnrestrictedAlwaysShown(role: Option<UserRole>)
    ensures DashboardItem in GetNavItems(role) && VerifyItem in GetNavItems(role)
  {
    UnrestrictedCandidates(role);
    UnrestrictedShown(role, DashboardItem);
    UnrestrictedShown(role, VerifyItem);
  }

  lemma UnrestrictedCandidates(role: Option<UserRole>)
    ensures DashboardItem in Candidates(role) && VerifyItem in Candidates(role)
  {
    if role == Some(Admin) {
      AdminCandidates(role);
      assert AllItems[0] == DashboardItem && AllItems[3] == VerifyItem;
    } else {
      assert BaseItems[0] == DashboardItem && BaseItems[3] == VerifyItem;
    }
  }

  lemma UnrestrictedShown(role: Option<UserRole>, x: NavItem)
    requires x in Candidates(role) && x.roles.None?
    ensures x in GetNavItems(role)
  {
    GetNavItemsSpec(role);
  }

  /** A restricted base item is shown exactly when the role is on its list. */
  lemma RestrictedShownIffListed(role: Option<UserRole>, x: NavItem)
    requires x in BaseItems && x.roles.Some?
    ensures x in GetNavItems(role) <==> role.Some? && role.value in x.roles.value
  {
    GetNavItemsSpec(role);
    if role == Some(Admin) {
      assert x in Candidates(role) by {
        AdminCandidates(role);
        AllItemsRanked();
      }
    }
  }

  /** The administrative items appear for Admin only. */
  lemma AdminItemsOnlyForAdmin(role: Option<UserRole>)
    requires role != Some(Admin)
    ensures forall x | x in GetNavItems(role) :: x.href !in AdminHrefs
  {
    GetNavItemsSpec(role);
    forall x | x in GetNavItems(role) ensures x.href !in AdminHrefs {
      BaseItemNotAdmin(x);
    }
  }

  const AdminHrefs: set<string> := {"/admin/users", "/admin/analytics", "/settings"}

  lemma BaseItemNotAdmin(x: NavItem)
    requires x in BaseItems
    ensures x.href !in AdminHrefs
  {
  }

  /** Without a role only the unrestricted items are shown. */
  lemma NoRoleOnlyUnrestricted()
    ensures forall x | x in GetNavItems(None) :: x.roles.None?
  {
    GetNavItemsSpec(None);
  }

  /** The menu each role is meant to see, written out item by item. */
  function ExpectedNavItems(role: Option<UserRole>): seq<NavItem> {
    match role
    case None => [DashboardItem, VerifyItem]
    case Some(Admin) => AllItems
    case Some(Manufacturer) => [DashboardItem, RegisterItem, ManageItem, VerifyItem, AlertsItem]
    case Some(Distributor) => [DashboardItem, ManageItem, VerifyItem, AlertsItem]
    case Some(_) => [DashboardItem, VerifyItem]
  }

  /**
    The computed menu is the expected one for every role: all eight items for
    Admin, the five base items for a Manufacturer, those without Register
    Batch for a Distributor, and Dashboard and Verify Batch otherwise.
   */
  lemma GetNavItemsByRole(role: Option<UserRole>)
    ensures GetNavItems(role) == ExpectedNavItems(role)
  {
    if role == Some(Admin) { AdminMenu(role); } else { BaseMenu(role); }
  }

  lemma AdminMenu(role: Option<UserRole>)
    requires role == Some(Admin)
    ensures GetNavItems(role) == AllItems
  {
    assert Candidates(role) == AllItems by { AdminCandidates(role); }
    assert FilterVisible(AllItems, role) == AllItems by {
      AdminSeesAll(role);
      FilterAllVisible(AllItems, role);
    }
    assert SortBy(AllItems, ItemRank) == AllItems by {
      AllItemsRanked();
      SortSortedIsIdentity(AllItems, ItemRank);
    }
  }

  lemma BaseMenu(role: Option<UserRole>)
    requires role != Some(Admin)
    ensures GetNavItems(role) == ExpectedNavItems(role)
  {
    var e := ExpectedNavItems(role);
    assert Candidates(role) == BaseItems;
    assert FilterVisible(BaseItems, role) == e by {
      FilterBase(role);
      KeptBase(role);
    }
    assert SortBy(e, ItemRank) == e by {
      ExpectedSorted(role);
      SortSortedIsIdentity(e, ItemRank);
    }
  }

  /** The five keep decisions give the expected menu of a non-admin role. */
  lemma KeptBase(role: Option<UserRole>)
    requires role != Some(Admin)
    ensures Keep(DashboardItem, role) + (Keep(RegisterItem, role) + (Keep(ManageItem, role)
      + (Keep(VerifyItem, role) + Keep(AlertsItem, role)))) == ExpectedNavItems(role)
  {
    match role
    case None =>
    case Some(Manufacturer) =>
    case Some(Distributor) =>
    case Some(_) =>
  }

  lemma ExpectedSorted(role: Option<UserRole>)
    requires role != Some(Admin)
    ensures SortedBy(ExpectedNavItems(role), ItemRank)
  {
    RanksOfItems();
  }

  /** Admin's eight items have pairwise distinct hrefs. */
  lemma AdminHrefsDistinct(role: Option<UserRole>)
    requires role == Some(Admin)
    ensures |GetNavItems(role)| == 8 && DistinctHrefs(GetNavItems(role))
  {
    GetNavItemsByRole(role);
    AllItemsRanked();
  }

  /** Every item either carries no role list or lists Admin. */
  lemma AdminSeesAll(role: Option<UserRole>)
    requires role == Some(Admin)
    ensures forall i | 0 <= i < |AllItems| :: Visible(AllItems[i], role)
  {
    assert Visible(DashboardItem, role) && Visible(RegisterItem, role) && Visible(ManageItem, role);
    assert Visible(VerifyItem, role) && Visible(AlertsItem, role) && Visible(UsersItem, role);
    assert Visible(AnalyticsItem, role) && Visible(SettingsItem, role);
  }

  lemma {:induction false} FilterAllVisible(items: seq<NavItem>, role: Option<UserRole>)
    requires forall i | 0 <= i < |items| :: Visible(items[i], role)
    ensures FilterVisible(items, role) == items
  {
    if items != [] {
      assert forall i | 0 <= i < |items[1..]| :: items[1..][i] == items[i + 1];
      FilterAllVisible(items[1..], role);
      assert items == [items[0]] + items[1..];
    }
  }
}
