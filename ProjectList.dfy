/** The KPI page's project list: three drop-down filters (start year, department,
    SDG) applied one after the other, and a pager whose first page holds three
    cards and every later page nine. */
module ProjectList {
  import opened Common

  /** The members of a project the list reads; an absent member is None. */
  datatype Project = Project(period: Option<string>, department: Option<string>, weight: Option<string>)

  function Truthy(v: Option<string>): bool { v.Some? && v.value != "" }

  /** `s.replace(pattern, "")`: the first occurrence of a non-empty pattern removed. */
  function RemoveFirst(s: string, pattern: string): (r: string)
    requires pattern != []
    ensures !Contains(s, pattern) ==> r == s
    ensures StartsWith(s, pattern) ==> r == s[|pattern|..]
    decreases |s|
  {
    if |s| < |pattern| then s
    else if s[..|pattern|] == pattern then
      assert OccursAt(s, pattern, 0);
      s[|pattern|..]
    else
      var rest := RemoveFirst(s[1..], pattern);
      assert !Contains(s, pattern) ==> !Contains(s[1..], pattern) by {
        if Contains(s[1..], pattern) {
          var i :| 0 <= i <= |s[1..]| - |pattern| && OccursAt(s[1..], pattern, i);
          assert OccursAt(s, pattern, i + 1);
        }
      }
      [s[0]] + rest
  }

  /** The year filter keeps the projects with a period whose start (the text before the
      first "-") is a date in the selected year; `yearOf` is the browser's date parser,
      None for an invalid date. */
  predicate InYear(p: Project, year: string, yearOf: string -> Option<int>): (b: bool)
    ensures b ==> p.period.Some? && p.period.value != "" && ParseIntJs(year).Some?
  {
    Truthy(p.period) && ParseIntJs(year).Some? && yearOf(FirstPiece(p.period.value, '-')) == ParseIntJs(year)
  }

  predicate InDepartment(p: Project, dep: string) {
    p.department == Some(dep)
  }

  /** The SDG filter keeps a project whose weight list has "1" at the SDG's position
      (the number after "SDG", counted from 1). */
  predicate HasSdg(p: Project, sdg: string): (b: bool)
    ensures b ==> p.weight.Some? && p.weight.value != ""
  {
    Truthy(p.weight) &&
    var weights := Split(p.weight.value, ',');
    var n := ParseIntJs(RemoveFirst(sdg, "SDG"));
    n.Some? && 1 <= n.value <= |weights| && weights[n.value - 1] == "1"
  }

  /** The three filters in order; "all" switches one off. */
  function ApplyFilters(projects: seq<Project>, year: string, dep: string, sdg: string,
                        yearOf: string -> Option<int>): seq<Project>
  {
    var byYear := if year != "all" then Filter(projects, p => InYear(p, year, yearOf)) else projects;
    var byDep := if dep != "all" then Filter(byYear, p => InDepartment(p, dep)) else byYear;
    if sdg != "all" then Filter(byDep, p => HasSdg(p, sdg)) else byDep
  }

  /** The filters compose: the list shown is the input with the projects that fail an
      active filter dropped, in the input's order. */
  lemma FiltersCompose(projects: seq<Project>, year: string, dep: string, sdg: string,
                       yearOf: string -> Option<int>)
    ensures var r := ApplyFilters(projects, year, dep, sdg, yearOf);
            IsSubsequence(r, projects)
            && forall p :: p in r <==> p in projects && (year == "all" || InYear(p, year, yearOf))
                                                    && (dep == "all" || InDepartment(p, dep))
                                                    && (sdg == "all" || HasSdg(p, sdg))
  {
    var byYear := if year != "all" then Filter(projects, p => InYear(p, year, yearOf)) else projects;
    var byDep := if dep != "all" then Filter(byYear, p => InDepartment(p, dep)) else byYear;
    var r := ApplyFilters(projects, year, dep, sdg, yearOf);
    assert IsSubsequence(projects, projects) by {
      SubsequenceReflexive(projects);
    }
    assert IsSubsequence(byDep, projects) by {
      SubsequenceReflexive(byYear);
      SubsequenceTransitive(byDep, byYear, projects);
    }
    assert IsSubsequence(r, projects) by {
      SubsequenceReflexive(byDep);
      SubsequenceTransitive(r, byDep, projects);
    }
  }

  /** An SDG selection "SDGk" keeps exactly the projects whose k-th weight is "1". */
  lemma SdgSelection(p: Project, k: nat)
    requires 1 <= k
    ensures HasSdg(p, "SDG" + NatToString(k)) <==>
            Truthy(p.weight) && k <= |Split(p.weight.value, ',')| && Split(p.weight.value, ',')[k - 1] == "1"
  {
    assert StartsWith("SDG" + NatToString(k), "SDG");
    assert ("SDG" + NatToString(k))[3..] == NatToString(k);
    ParseIntJsOfNatToString(k);
  }

  // ---------------------------------------------------------------------------
  // Pages
  // ---------------------------------------------------------------------------

  const FirstPageItems := 3
  const OtherPagesItems := 9

  function CeilDiv(a: nat, b: nat): (q: nat)
    requires b > 0
    ensures q * b >= a && (q == 0 || (q - 1) * b < a)
  {
    if a % b == 0 then a / b else a / b + 1
  }

  /** The number of pages for n projects: one for at most three, otherwise exactly the
      page of the last project, so the last page is never empty. */
  function TotalPages(n: nat): (pages: nat)
    ensures pages >= 1
    ensures n <= FirstPageItems ==> pages == 1
    ensures n > 0 ==> pages == PageOf(n - 1) && PageStart(pages) < n
  {
    if n <= FirstPageItems then 1 else CeilDiv(n - FirstPageItems, OtherPagesItems) + 1
  }

  function PageStart(page: int): int {
    if page == 1 then 0 else FirstPageItems + (page - 2) * OtherPagesItems
  }

  function PageEnd(page: int, n: nat): int {
    if page == 1 then Min(FirstPageItems, n) else Min(PageStart(page) + OtherPagesItems, n)
  }

  function Min(a: int, b: int): int { if a <= b then a else b }

  /** The cards on a page. */
  function PageItems<T>(items: seq<T>, page: int): (r: seq<T>)
    ensures 1 <= page ==> |r| <= if page == 1 then FirstPageItems else OtherPagesItems
  {
    JsSlice(items, PageStart(page), PageEnd(page, |items|))
  }

  /** The page that holds item i. */
  function PageOf(i: nat): (page: nat)
    ensures page >= 1
  {
    if i < FirstPageItems then 1 else (i - FirstPageItems) / OtherPagesItems + 2
  }

  /** Pages 1..TotalPages(n) cover every item exactly once: item i lies on page PageOf(i),
      which is one of them, and on no other page. */
  lemma PagesPartitionItems(n: nat, i: nat)
    requires i < n
    ensures 1 <= PageOf(i) <= TotalPages(n)
    ensures PageStart(PageOf(i)) <= i < PageEnd(PageOf(i), n)
    ensures forall page :: 1 <= page && PageStart(page) <= i < PageEnd(page, n) ==> page == PageOf(i)
  {
    var q := PageOf(i);
    if i >= FirstPageItems {
      var k := (i - FirstPageItems) / OtherPagesItems;
      assert FirstPageItems + k * OtherPagesItems <= i < FirstPageItems + (k + 1) * OtherPagesItems;
      assert q == k + 2;
      var c := CeilDiv(n - FirstPageItems, OtherPagesItems);
      assert k < c;
    }
    forall page | 1 <= page && PageStart(page) <= i < PageEnd(page, n) ensures page == q {
      if page >= 2 && i >= FirstPageItems {
        var k := (i - FirstPageItems) / OtherPagesItems;
        assert FirstPageItems + (page - 2) * OtherPagesItems <= i < FirstPageItems + (page - 1) * OtherPagesItems;
        assert FirstPageItems + k * OtherPagesItems <= i < FirstPageItems + (k + 1) * OtherPagesItems;
        SameBlock(page - 2, k, i - FirstPageItems);
      }
    }
  }

  lemma SameBlock(a: nat, b: nat, x: nat)
    requires a * 9 <= x < (a + 1) * 9 && b * 9 <= x < (b + 1) * 9
    ensures a == b
  {
  }

  /** The item at position i is shown on its page, at its offset. */
  lemma ItemOnItsPage<T>(items: seq<T>, i: nat)
    requires i < |items|
    ensures var page := PageOf(i);
            i - PageStart(page) < |PageItems(items, page)| && PageItems(items, page)[i - PageStart(page)] == items[i]
  {
    PagesPartitionItems(|items|, i);
  }
}
