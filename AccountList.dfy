/** The back-office account list: accounts as the user API delivers them are
    normalised, filtered by a search term, a status and a role, shown twenty to a
    page under a window of at most five numbered page buttons, and selected a page
    at a time. */
module AccountList {
  import opened Common
  import opened JsonData

  /** A user record as delivered; None is an absent or null member. */
  datatype RawUser = RawUser(
    id: Json,
    email: Option<string>,
    hoster: Option<string>,
    undertake: Option<string>,
    role: Option<string>,
    lastLoginAt: Option<Json>,
    loginCount: Option<Json>)

  /** An account row; status stays None until the account's active flag is known. */
  datatype Account = Account(
    id: Json,
    email: string,
    host: string,
    organization: string,
    role: string,
    status: Option<string>,
    lastLogin: Json,
    loginCount: Json)

  const OldAdminRole := "系統管理員"
  const AdminRole := "系統管理者"

  /** `x ?? "-"`. */
  function OrDash(x: Option<Json>): (r: Json)
    ensures x.None? || x == Some(JNull) ==> r == JStr("-")
    ensures x.Some? && x.value != JNull ==> r == x.value
  {
    if x.None? || x.value == JNull then JStr("-") else x.value
  }

  /** The row for a delivered user: the old name of the administrator role (trimmed) is
      renamed, missing texts become "", missing login facts "-". */
  function Normalize(u: RawUser): (a: Account)
    ensures a.id == u.id && a.status.None?
    ensures a.email == u.email.GetOr("") && a.host == u.hoster.GetOr("") && a.organization == u.undertake.GetOr("")
    ensures Strip(Js, u.role.GetOr("")) == OldAdminRole ==> a.role == AdminRole
    ensures Strip(Js, u.role.GetOr("")) != OldAdminRole ==> a.role == u.role.GetOr("")
    ensures a.lastLogin == OrDash(u.lastLoginAt) && a.loginCount == OrDash(u.loginCount)
  {
    var role := u.role.GetOr("");
    Account(u.id, u.email.GetOr(""), u.hoster.GetOr(""), u.undertake.GetOr(""),
            if Strip(Js, role) == OldAdminRole then AdminRole else role,
            None, OrDash(u.lastLoginAt), OrDash(u.loginCount))
  }

  /** After normalising, no row carries the old name of the administrator role. */
  lemma NoOldAdminRole(u: RawUser)
    ensures Strip(Js, Normalize(u).role) != OldAdminRole
  {
    var role := u.role.GetOr("");
    if Strip(Js, role) == OldAdminRole {
      assert Normalize(u).role == AdminRole;
      AdminRoleTrimmed();
      RoleNamesDiffer();
    } else {
      assert Normalize(u).role == role;
    }
  }

  lemma AdminRoleTrimmed()
    ensures Strip(Js, AdminRole) == AdminRole
  {
    assert !IsJsSpace(AdminRole[0]) && !IsJsSpace(AdminRole[4]);
    StripUnchanged(Js, AdminRole);
  }

  lemma RoleNamesDiffer()
    ensures AdminRole != OldAdminRole
  {
    assert OldAdminRole[4] != AdminRole[4];
  }

  const AllStatuses := "所有狀態"
  const AllRoles := "所有角色"

  /** An account passes when the search term occurs (ignoring case) in its email or
      host, and its status and role equal the selected ones unless "all" is selected. */
  predicate Matches(a: Account, search: string, status: string, role: string) {
    (Contains(Lower(a.email), Lower(search)) || Contains(Lower(a.host), Lower(search)))
    && (status == AllStatuses || a.status == Some(status))
    && (role == AllRoles || a.role == role)
  }

  function FilteredAccounts(items: seq<Account>, search: string, status: string, role: string): (r: seq<Account>)
    ensures forall a :: a in r <==> a in items && Matches(a, search, status, role)
    ensures IsSubsequence(r, items)
  {
    Filter(items, a => Matches(a, search, status, role))
  }

  /** An empty search with both selectors on "all" shows every account. */
  lemma NoFilterShowsAll(items: seq<Account>)
    ensures FilteredAccounts(items, "", AllStatuses, AllRoles) == items
  {
    forall a | a in items ensures Matches(a, "", AllStatuses, AllRoles) {
      assert OccursAt(Lower(a.email), Lower(""), 0);
    }
    FilterKeepsAll(items, a => Matches(a, "", AllStatuses, AllRoles));
  }

  lemma {:induction false} FilterKeepsAll<T(!new)>(s: seq<T>, keep: T -> bool)
    requires forall x :: x in s ==> keep(x)
    ensures Filter(s, keep) == s
  {
    if s != [] {
      FilterKeepsAll(s[1..], keep);
      assert s == [s[0]] + s[1..];
    }
  }

  // ---------------------------------------------------------------------------
  // Pages
  // ---------------------------------------------------------------------------

  const ItemsPerPage := 20

  function PageStart(page: int): int { (page - 1) * ItemsPerPage }

  /** The accounts on a page. */
  function PaginatedData<T>(accounts: seq<T>, page: int): (r: seq<T>)
    ensures |r| <= ItemsPerPage
  {
    JsSlice(accounts, PageStart(page), PageStart(page) + ItemsPerPage)
  }

  /** `Math.ceil(n / 20)`: no pages at all for an empty list. */
  function TotalPages(n: nat): (pages: nat)
    ensures pages * ItemsPerPage >= n && (pages == 0 || (pages - 1) * ItemsPerPage < n)
  {
    if n % ItemsPerPage == 0 then n / ItemsPerPage else n / ItemsPerPage + 1
  }

  /** Every account lies on exactly one page between 1 and the page count, at its offset. */
  lemma PagesPartitionAccounts<T>(accounts: seq<T>, i: nat)
    requires i < |accounts|
    ensures var page := i / ItemsPerPage + 1;
            1 <= page <= TotalPages(|accounts|)
            && PaginatedData(accounts, page)[i % ItemsPerPage] == accounts[i]
            && forall p :: PageStart(p) <= i < PageStart(p) + ItemsPerPage ==> p == page
  {
    var page := i / ItemsPerPage + 1;
    var n := |accounts|;
    assert PageStart(page) + ItemsPerPage <= n || PaginatedData(accounts, page) == accounts[PageStart(page)..];
    forall p | PageStart(p) <= i < PageStart(p) + ItemsPerPage ensures p == page {
    }
  }

  // ---------------------------------------------------------------------------
  // Page buttons
  // ---------------------------------------------------------------------------

  const MaxVisible := 5

  function Max(a: int, b: int): int { if a >= b then a else b }
  function Min(a: int, b: int): int { if a <= b then a else b }

  /** The first and last numbered page button: centred on the current page, shifted
      back when the end is near, and cut to the existing pages. */
  function Window(current: int, total: nat): (w: (int, int))
    ensures 1 <= w.0 && w.1 <= total
    ensures w.1 - w.0 + 1 <= MaxVisible
    ensures 1 <= current <= total ==> w.0 <= current <= w.1
    ensures total >= 1 ==> w.1 - w.0 + 1 == Min(MaxVisible, total)
  {
    var start := Max(1, current - MaxVisible / 2);
    var end := Min(total, start + MaxVisible - 1);
    if end - start + 1 < MaxVisible then (Max(1, end - MaxVisible + 1), end) else (start, end)
  }

  datatype Button =
    | PrevButton(target: int, disabled: bool)
    | PageButton(page: int, active: bool)
    | Gap
    | NextButton(target: int, disabled: bool)

  /** The buttons before the window: page 1 and a gap when pages are skipped. */
  function Leading(start: int): seq<Button> {
    if start > 1 then [PageButton(1, false)] + (if start > 2 then [Gap] else []) else []
  }

  /** The buttons after the window: a gap and the last page when it is not shown. */
  function Trailing(end: int, total: nat): seq<Button> {
    if end < total then (if end < total - 1 then [Gap] else []) + [PageButton(total, false)] else []
  }

  /** The numbered buttons from `start` up to `end`, the current one marked. */
  function Numbered(start: int, end: int, current: int): (r: seq<Button>)
    ensures |r| == if end < start then 0 else end - start + 1
    ensures forall k :: 0 <= k < |r| ==> r[k] == PageButton(start + k, start + k == current)
  {
    if end < start then [] else seq(end - start + 1, k => PageButton(start + k, start + k == current))
  }

  /** One button per page from `start` up to `end`, pushed in order. */
  method PushPageButtons(head: seq<Button>, start: int, end: int, current: int) returns (buttons: seq<Button>)
    ensures buttons == head + Numbered(start, end, current)
  {
    buttons := head;
    var p := start;
    while p <= end
      invariant start <= p <= Max(start, end + 1)
      invariant buttons == head + Numbered(start, p - 1, current)
    {
      assert Numbered(start, p, current) == Numbered(start, p - 1, current) + [PageButton(p, p == current)];
      buttons := buttons + [PageButton(p, p == current)];
      p := p + 1;
    }
  }

  /** Previous, the page buttons and Next. */
  method RenderPaginationButtons(current: int, total: nat) returns (buttons: seq<Button>)
    ensures var (start, end) := Window(current, total);
            buttons == [PrevButton(current - 1, current == 1)] + Leading(start) + Numbered(start, end, current)
                       + Trailing(end, total) + [NextButton(current + 1, current == total)]
  {
    var start := Max(1, current - MaxVisible / 2);
    var end := Min(total, start + MaxVisible - 1);
    if end - start + 1 < MaxVisible {
      start := Max(1, end - MaxVisible + 1);
    }
    assert (start, end) == Window(current, total);
    buttons := [PrevButton(current - 1, current == 1)];
    if start > 1 {
      buttons := buttons + [PageButton(1, false)];
      if start > 2 {
        buttons := buttons + [Gap];
      }
    }
    var head := buttons;
    assert head == [PrevButton(current - 1, current == 1)] + Leading(start);
    buttons := PushPageButtons(buttons, start, end, current);
    var middle := buttons;
    assert middle == head + Numbered(start, end, current);
    if end < total {
      if end < total - 1 {
        buttons := buttons + [Gap];
      }
      buttons := buttons + [PageButton(total, false)];
    }
    assert buttons == middle + Trailing(end, total);
    buttons := buttons + [NextButton(current + 1, current == total)];
  }

  /** The numbered pages shown are distinct existing pages, at most five, and the current
      page is among them when it exists. */
  lemma WindowShowsCurrent(current: int, total: nat)
    requires 1 <= current <= total
    ensures var (start, end) := Window(current, total);
            var shown := Numbered(start, end, current);
            1 <= |shown| <= MaxVisible
            && (forall k :: 0 <= k < |shown| ==> 1 <= shown[k].page <= total)
            && (exists k :: 0 <= k < |shown| && shown[k] == PageButton(current, true))
  {
    var (start, end) := Window(current, total);
    var shown := Numbered(start, end, current);
    assert shown[current - start] == PageButton(current, true);
  }

  // ---------------------------------------------------------------------------
  // Selection
  // ---------------------------------------------------------------------------

  /** `[...new Set(s)]`: each value once, where it first occurs. */
  function Unique<T(==,!new)>(s: seq<T>): (r: seq<T>)
    ensures forall x :: x in r <==> x in s
    ensures Distinct(r)
  {
    if s == [] then []
    else
      var u := Unique(s[..|s| - 1]);
      var x := s[|s| - 1];
      assert forall y :: y in s <==> y in s[..|s| - 1] || y == x by {
        assert s == s[..|s| - 1] + [x];
      }
      if x in u then u else u + [x]
  }

  predicate Distinct<T(==)>(s: seq<T>) {
    forall i, j :: 0 <= i < j < |s| ==> s[i] != s[j]
  }

  /** The page's ids are added to the selection; unselecting removes exactly them. */
  function SelectAll<T(==,!new)>(selected: seq<T>, pageIds: seq<T>, checked: bool): (r: seq<T>)
    ensures checked ==> forall x :: x in r <==> x in selected || x in pageIds
    ensures checked ==> Distinct(r)
    ensures !checked ==> forall x :: x in r <==> x in selected && x !in pageIds
    ensures !checked ==> IsSubsequence(r, selected)
  {
    if checked then Unique(selected + pageIds) else Filter(selected, id => id !in pageIds)
  }

  /** Selecting a page keeps a duplicate-free selection in place, in front. */
  lemma {:induction false} SelectAllKeepsSelection<T(!new)>(selected: seq<T>, pageIds: seq<T>)
    requires Distinct(selected)
    ensures var r := SelectAll(selected, pageIds, true);
            |selected| <= |r| && r[..|selected|] == selected
    decreases |pageIds|
  {
    if pageIds == [] {
      assert selected + pageIds == selected;
      UniqueOfDistinct(selected);
    } else {
      var init := pageIds[..|pageIds| - 1];
      SelectAllKeepsSelection(selected, init);
      assert (selected + pageIds)[..|selected + pageIds| - 1] == selected + init;
    }
  }

  lemma {:induction false} UniqueOfDistinct<T(!new)>(s: seq<T>)
    requires Distinct(s)
    ensures Unique(s) == s
  {
    if s != [] {
      var init := s[..|s| - 1];
      UniqueOfDistinct(init);
      assert s[|s| - 1] !in init;
      assert s == init + [s[|s| - 1]];
    }
  }
}
