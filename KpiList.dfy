/** The KPI overview: per-SDG project counts and the budget by department, summed
    over the replies for each hoster account (a failed request is a null reply), and
    the SDG with the most projects. */
module KpiList {
  import opened Common

  /** The accounts asked: all but the first when there are several. */
  function Hosters(all: seq<string>): (r: seq<string>)
    ensures |all| > 1 ==> r == all[1..]
    ensures |all| <= 1 ==> r == all
  {
    if |all| > 1 then all[1..] else all
  }

  // ---------------------------------------------------------------------------
  // The SDG with the most projects
  // ---------------------------------------------------------------------------

  /** The SDG id and count of the first entry whose count is strictly greater than every
      earlier one, starting from 0: no id when no count is positive. */
  method TopSdg(entries: seq<(int, int)>) returns (topId: Option<int>, maxCount: int)
    ensures maxCount >= 0 && forall j :: 0 <= j < |entries| ==> entries[j].1 <= maxCount
    ensures topId.None? <==> forall j :: 0 <= j < |entries| ==> entries[j].1 <= 0
    ensures topId.None? ==> maxCount == 0
    ensures topId.Some? ==> exists i :: 0 <= i < |entries| && entries[i] == (topId.value, maxCount)
                                        && forall j :: 0 <= j < i ==> entries[j].1 < maxCount
  {
    maxCount := 0;
    topId := None;
    ghost var at := 0;
    for i := 0 to |entries|
      invariant maxCount >= 0 && forall j :: 0 <= j < i ==> entries[j].1 <= maxCount
      invariant topId.None? <==> forall j :: 0 <= j < i ==> entries[j].1 <= 0
      invariant topId.None? ==> maxCount == 0
      invariant topId.Some? ==> 0 <= at < i && entries[at] == (topId.value, maxCount)
                                && forall j :: 0 <= j < at ==> entries[j].1 < maxCount
    {
      if entries[i].1 > maxCount {
        maxCount := entries[i].1;
        topId := Some(entries[i].0);
        at := i;
      }
    }
  }

  // ---------------------------------------------------------------------------
  // SDG counts
  // ---------------------------------------------------------------------------

  /** A reply of the SDG endpoint: the total (absent is 0) and the count per "SDG-i" key
      (an absent key counts 0). */
  datatype SdgReply = SdgReply(totalProjects: Option<int>, sdgsProjects: map<string, int>)

  function SdgKey(i: nat): string { "SDG-" + NatToString(i) }

  function CountOf(r: SdgReply, i: nat): int {
    if SdgKey(i) in r.sdgsProjects then r.sdgsProjects[SdgKey(i)] else 0
  }

  /** The count of SDG i summed over the replies that arrived. */
  function SdgSum(replies: seq<Option<SdgReply>>, i: nat): int {
    if replies == [] then 0
    else
      var last := replies[|replies| - 1];
      SdgSum(replies[..|replies| - 1], i) + if last.Some? then CountOf(last.value, i) else 0
  }

  function TotalSum(replies: seq<Option<SdgReply>>): int {
    if replies == [] then 0
    else
      var last := replies[|replies| - 1];
      TotalSum(replies[..|replies| - 1]) + if last.Some? then last.value.totalProjects.GetOr(0) else 0
  }

  /** The sums are additive over the replies, and a failed request adds nothing. */
  lemma {:induction false} SdgSumAdditive(a: seq<Option<SdgReply>>, b: seq<Option<SdgReply>>, i: nat)
    ensures SdgSum(a + b, i) == SdgSum(a, i) + SdgSum(b, i)
    ensures SdgSum(a + [None], i) == SdgSum(a, i)
    decreases |b|
  {
    assert (a + [None])[..|a|] == a;
    if b != [] {
      var init := b[..|b| - 1];
      SdgSumAdditive(a, init, i);
      assert (a + b)[..|a + b| - 1] == a + init;
    } else {
      assert a + b == a;
    }
  }

  /** The counts of SDG 1 to 17 (index 0 unused) and the total, summed reply by reply. */
  method SumSdgs(replies: seq<Option<SdgReply>>) returns (sums: seq<int>, total: int)
    ensures |sums| == 18 && sums[0] == 0
    ensures forall i :: 1 <= i <= 17 ==> sums[i] == SdgSum(replies, i)
    ensures total == TotalSum(replies)
  {
    sums := seq(18, _ => 0);
    total := 0;
    for k := 0 to |replies|
      invariant |sums| == 18 && sums[0] == 0
      invariant forall i :: 1 <= i <= 17 ==> sums[i] == SdgSum(replies[..k], i)
      invariant total == TotalSum(replies[..k])
    {
      assert replies[..k + 1][..k] == replies[..k];
      var data := replies[k];
      if data.None? {
        continue;
      }
      total := total + data.value.totalProjects.GetOr(0);
      ghost var before := sums;
      for i := 1 to 18
        invariant |sums| == 18 && sums[0] == 0
        invariant forall j :: 1 <= j < i ==> sums[j] == before[j] + CountOf(data.value, j)
        invariant forall j :: i <= j <= 17 ==> sums[j] == before[j]
      {
        sums := sums[i := sums[i] + CountOf(data.value, i)];
      }
    }
    assert replies[..|replies|] == replies;
  }

  /** The counts as the SDG table keeps them: ids 1 to 17 in order. */
  function SdgEntries(sums: seq<int>): (r: seq<(int, int)>)
    requires |sums| == 18
    ensures |r| == 17 && forall k :: 0 <= k < 17 ==> r[k] == (k + 1, sums[k + 1])
  {
    seq(17, k requires 0 <= k < 17 => (k + 1, sums[k + 1]))
  }

  // ---------------------------------------------------------------------------
  // Budget by department
  // ---------------------------------------------------------------------------

  datatype DeptRow = DeptRow(projectB: Option<string>, budget: Option<int>, projects: Option<int>)

  /** A reply of the budget endpoint: its total under "total", "total:" or content.total
      (the first present), and its department rows when they are an array. */
  datatype BudgetReply = BudgetReply(total: Option<int>, totalColon: Option<int>, contentTotal: Option<int>,
                                     departments: Option<seq<DeptRow>>)

  function ReplyTotal(r: BudgetReply): int {
    if r.total.Some? then r.total.value
    else if r.totalColon.Some? then r.totalColon.value
    else r.contentTotal.GetOr(0)
  }

  /** A row names a department: not missing, "null", "未標示" or blank. */
  predicate Named(row: DeptRow) {
    row.projectB.Some? && row.projectB.value != "" && row.projectB.value != "null"
    && row.projectB.value != "未標示" && Strip(Js, row.projectB.value) != ""
  }

  datatype Tally = Tally(budget: int, projects: int)

  function Plus(a: Tally, b: Tally): Tally { Tally(a.budget + b.budget, a.projects + b.projects) }

  /** What one row adds to a department. */
  function RowTally(row: DeptRow, name: string): Tally {
    if Named(row) && row.projectB.value == name then Tally(row.budget.GetOr(0), row.projects.GetOr(0))
    else Tally(0, 0)
  }

  /** What the rows of one reply add to a department. */
  function RowsTally(rows: seq<DeptRow>, name: string): Tally {
    if rows == [] then Tally(0, 0)
    else Plus(RowsTally(rows[..|rows| - 1], name), RowTally(rows[|rows| - 1], name))
  }

  /** What all replies that arrived add to a department. */
  function DeptTally(replies: seq<Option<BudgetReply>>, name: string): Tally {
    if replies == [] then Tally(0, 0)
    else
      var last := replies[|replies| - 1];
      Plus(DeptTally(replies[..|replies| - 1], name),
           if last.Some? then RowsTally(last.value.departments.GetOr([]), name) else Tally(0, 0))
  }

  function BudgetTotal(replies: seq<Option<BudgetReply>>): int {
    if replies == [] then 0
    else
      var last := replies[|replies| - 1];
      BudgetTotal(replies[..|replies| - 1]) + if last.Some? then ReplyTotal(last.value) else 0
  }

  /** The table of configured departments: exactly those names, with the tallies of
      the replies. Rows for other names and unnamed rows are ignored. */
  method BudgetSummary(departments: seq<string>, replies: seq<Option<BudgetReply>>)
    returns (byDept: map<string, Tally>, total: int)
    ensures byDept.Keys == set d | d in departments
    ensures forall name :: name in byDept ==> byDept[name] == DeptTally(replies, name)
    ensures total == BudgetTotal(replies)
  {
    byDept := map[];
    for k := 0 to |departments|
      invariant byDept.Keys == set d | d in departments[..k]
      invariant forall name :: name in byDept ==> byDept[name] == Tally(0, 0)
    {
      assert departments[..k + 1] == departments[..k] + [departments[k]];
      byDept := byDept[departments[k] := Tally(0, 0)];
    }
    assert departments[..|departments|] == departments;
    total := 0;
    for k := 0 to |replies|
      invariant byDept.Keys == set d | d in departments
      invariant forall name :: name in byDept ==> byDept[name] == DeptTally(replies[..k], name)
      invariant total == BudgetTotal(replies[..k])
    {
      assert replies[..k + 1][..k] == replies[..k];
      var data := replies[k];
      if data.None? {
        continue;
      }
      total := total + ReplyTotal(data.value);
      var rows := data.value.departments.GetOr([]);
      byDept := AddRows(byDept, rows);
    }
    assert replies[..|replies|] == replies;
  }

  /** The table after one row: a named row of a configured department adds to it. */
  function AddRow(table: map<string, Tally>, d: DeptRow): map<string, Tally> {
    if Named(d) && d.projectB.value in table then
      table[d.projectB.value := Plus(table[d.projectB.value], Tally(d.budget.GetOr(0), d.projects.GetOr(0)))]
    else table
  }

  lemma AddRowKeys(table: map<string, Tally>, d: DeptRow)
    ensures AddRow(table, d).Keys == table.Keys
  {
  }

  lemma AddRowAt(table: map<string, Tally>, d: DeptRow, name: string)
    requires name in table
    ensures name in AddRow(table, d) && AddRow(table, d)[name] == Plus(table[name], RowTally(d, name))
  {
  }

  lemma AddRowStep(byDept: map<string, Tally>, before: map<string, Tally>, rows: seq<DeptRow>, j: nat)
    requires j < |rows| && before.Keys == byDept.Keys
    requires forall name :: name in before ==> before[name] == Plus(byDept[name], RowsTally(rows[..j], name))
    ensures var after := AddRow(before, rows[j]);
            after.Keys == byDept.Keys
            && forall name :: name in after ==> after[name] == Plus(byDept[name], RowsTally(rows[..j + 1], name))
  {
    var after := AddRow(before, rows[j]);
    AddRowKeys(before, rows[j]);
    assert rows[..j + 1][..j] == rows[..j];
    forall name | name in after
      ensures after[name] == Plus(byDept[name], RowsTally(rows[..j + 1], name))
    {
      AddRowAt(before, rows[j], name);
    }
  }

  /** The forEach over one reply's rows. */
  method AddRows(byDept: map<string, Tally>, rows: seq<DeptRow>) returns (r: map<string, Tally>)
    ensures r.Keys == byDept.Keys
    ensures forall name :: name in r ==> r[name] == Plus(byDept[name], RowsTally(rows, name))
  {
    r := byDept;
    for j := 0 to |rows|
      invariant r.Keys == byDept.Keys
      invariant forall name :: name in r ==> r[name] == Plus(byDept[name], RowsTally(rows[..j], name))
    {
      var d := rows[j];
      ghost var before := r;
      AddRowStep(byDept, before, rows, j);
      if Named(d) {
        var name := d.projectB.value;
        if name in r {
          r := r[name := Plus(r[name], Tally(d.budget.GetOr(0), d.projects.GetOr(0)))];
        }
      }
      assert r == AddRow(before, d);
    }
    assert rows[..|rows|] == rows;
  }

  /** Rows without a usable department name never count. */
  lemma {:induction false} UnnamedRowsIgnored(rows: seq<DeptRow>, row: DeptRow, name: string)
    requires !Named(row)
    ensures RowsTally(rows + [row], name) == RowsTally(rows, name)
  {
    assert (rows + [row])[..|rows|] == rows;
  }
}
