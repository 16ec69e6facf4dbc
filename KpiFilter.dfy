/** The SDG landing page: the projects whose weight list marks the selected SDG,
    and the period text shown on each card. Projects are JSON values as the API
    delivers them. */
module KpiFilter {
  import opened Common
  import opened JsonData

  /** A project's weight member, when it is a string. */
  function Weight(p: Json): Option<string> {
    if p.JObj? && "weight" in p.fields && p.fields["weight"].JStr? then Some(p.fields["weight"].s) else None
  }

  /** A project marks the SDG at (zero-based) position idx: it has a non-empty weight
      string whose comma-separated entry there is "1" once trimmed. */
  predicate MarksSdg(p: Json, idx: int): (marked: bool)
    ensures marked ==> 0 <= idx && p.JObj? && "weight" in p.fields && p.fields["weight"].JStr?
  {
    var w := Weight(p);
    w.Some? && w.value != "" &&
    var entries := Split(w.value, ',');
    0 <= idx < |entries| && Strip(Js, entries[idx]) == "1"
  }

  /** The SDG index (counted from 0) an id names: none when the id is missing, empty or
      not a number. */
  function SdgIndex(sdgId: Option<string>): (i: Option<int>)
    ensures i.None? <==> sdgId.None? || sdgId.value == "" || ParseIntJs(sdgId.value).None?
  {
    if sdgId.None? || sdgId.value == "" then None
    else
      var n := ParseIntJs(sdgId.value);
      if n.None? then None else Some(n.value - 1)
  }

  /** The projects for an SDG id (counted from 1): all of them when the id is missing,
      empty or not a number. */
  function FilterBySdg(projects: seq<Json>, sdgId: Option<string>): (r: seq<Json>)
    ensures SdgIndex(sdgId).None? ==> r == projects
    ensures SdgIndex(sdgId).Some? ==> forall p :: p in r <==> p in projects && MarksSdg(p, SdgIndex(sdgId).value)
    ensures IsSubsequence(r, projects)
  {
    match SdgIndex(sdgId)
    case None => SubsequenceReflexive(projects); projects
    case Some(i) => FilterMarked(projects, i)
  }

  /** The projects that mark the SDG at the given index, in order. */
  function FilterMarked(projects: seq<Json>, idx: int): (r: seq<Json>)
    ensures forall p :: p in r <==> p in projects && MarksSdg(p, idx)
    ensures IsSubsequence(r, projects)
  {
    Filter(projects, p => MarksSdg(p, idx))
  }

  /** The decimal rendering of k names SDG k, at index k - 1. */
  lemma SdgIndexOfNat(k: nat)
    requires k >= 1
    ensures SdgIndex(Some(NatToString(k))) == Some(k - 1)
  {
    ParseIntJsOfNatToString(k);
  }

  /** With a numeric id, a project is kept exactly when it marks that SDG. */
  lemma FilterBySdgKeeps(projects: seq<Json>, k: nat, p: Json)
    requires k >= 1
    ensures p in FilterBySdg(projects, Some(NatToString(k))) <==> p in projects && MarksSdg(p, k - 1)
  {
    SdgIndexOfNat(k);
    assert FilterBySdg(projects, Some(NatToString(k))) == FilterMarked(projects, k - 1);
  }

  /** The length of a match of `\s*-\s*` at the start of s, if there is one. */
  function DashMatch(s: string): (n: Option<nat>)
    ensures n.Some? ==> 0 < n.value <= |s|
  {
    var w := SpaceRun(s);
    if w < |s| && s[w] == '-' then Some(w + 1 + SpaceRun(s[w + 1..])) else None
  }

  /** The period with each "-" and the whitespace around it turned into " ~ ", scanning
      from the left as the global replacement does: at each position, a run of
      whitespace followed by a dash (and the whitespace after it) is one match. */
  function ReplaceDashes(s: string): string
    decreases |s|
  {
    if s == [] then []
    else
      match DashMatch(s)
      case Some(n) => " ~ " + ReplaceDashes(s[n..])
      case None => [s[0]] + ReplaceDashes(s[1..])
  }

  /** No dash survives. */
  lemma {:induction false} NoDashShown(s: string)
    ensures '-' !in ReplaceDashes(s)
    decreases |s|
  {
    if s != [] {
      match DashMatch(s)
      case Some(n) => NoDashShown(s[n..]);
      case None =>
        assert s[0] != '-';
        NoDashShown(s[1..]);
    }
  }

  /** The period as shown: "" for anything but a string. */
  function DisplayPeriod(period: Json): (r: string)
    ensures !period.JStr? ==> r == ""
    ensures '-' !in r
  {
    if period.JStr? then NoDashShown(period.s); ReplaceDashes(period.s) else ""
  }

  /** Text without a dash is shown as it is. */
  lemma {:induction false} NoDashUnchanged(s: string)
    requires '-' !in s
    ensures ReplaceDashes(s) == s
    decreases |s|
  {
    if s != [] {
      NoDashUnchanged(s[1..]);
    }
  }

  /** A period "a - b" whose parts have no dash, and no whitespace next to the dash, is
      shown as "a ~ b". */
  lemma PeriodShown(a: string, b: string)
    requires '-' !in a && '-' !in b
    requires a == [] || !IsJsSpace(a[|a| - 1])
    requires b == [] || !IsJsSpace(b[0])
    ensures ReplaceDashes(a + " - " + b) == a + " ~ " + b
  {
    var tail := " - " + b;
    var shown := " ~ " + b;
    DashShown(b);
    assert a + " - " + b == a + tail;
    assert a + " ~ " + b == a + shown;
    if a == [] {
      assert a + tail == tail && a + shown == shown;
    } else {
      PrefixKept(a, tail);
    }
  }

  /** Text without a dash that ends in a non-whitespace character is shown as it is,
      whatever follows it. */
  lemma {:induction false} PrefixKept(a: string, r: string)
    requires a != [] && '-' !in a && !IsJsSpace(a[|a| - 1])
    ensures ReplaceDashes(a + r) == a + ReplaceDashes(r)
    decreases |a|, 1
  {
    var tail := a[1..];
    KeptFirstOfPrefix(a, r);
    assert (a + r)[1..] == tail + r;
    if tail == [] {
      assert tail + r == r;
    } else {
      PrefixKeptStep(a, r);
    }
    ConsTail(a, ReplaceDashes(r));
  }

  lemma ConsTail<T>(a: seq<T>, x: seq<T>)
    requires a != []
    ensures [a[0]] + (a[1..] + x) == a + x
  {
  }

  lemma {:induction false} PrefixKeptStep(a: string, r: string)
    requires |a| > 1 && '-' !in a && !IsJsSpace(a[|a| - 1])
    ensures ReplaceDashes(a[1..] + r) == a[1..] + ReplaceDashes(r)
    decreases |a|, 0
  {
    var tail := a[1..];
    assert tail[|tail| - 1] == a[|a| - 1];
    PrefixKept(tail, r);
  }

  /** The first character of a dash-free prefix ending in a non-whitespace character
      is kept as it is. */
  lemma KeptFirstOfPrefix(a: string, r: string)
    requires a != [] && '-' !in a && !IsJsSpace(a[|a| - 1])
    ensures ReplaceDashes(a + r) == [a[0]] + ReplaceDashes((a + r)[1..])
  {
    var s := a + r;
    assert forall i :: 0 <= i < |a| ==> s[i] == a[i];
    KeptFirst(s, |a| - 1);
  }

  lemma DashShown(b: string)
    requires '-' !in b && (b == [] || !IsJsSpace(b[0]))
    ensures ReplaceDashes(" - " + b) == " ~ " + b
  {
    var s := " - " + b;
    assert SpaceRun(s) == 1 by {
      assert s[1..] == "- " + b;
      assert SpaceRun(s[1..]) == 0;
    }
    assert SpaceRun(s[2..]) == 1 by {
      assert s[2..] == " " + b;
      assert s[2..][1..] == b;
    }
    assert DashMatch(s) == Some(3);
    assert s[3..] == b;
    NoDashUnchanged(b);
  }

  /** When the first non-whitespace character comes before any dash, the first
      character is kept as it is. */
  lemma KeptFirst(s: string, k: nat)
    requires k < |s| && !IsJsSpace(s[k]) && forall i :: 0 <= i <= k ==> s[i] != '-'
    ensures ReplaceDashes(s) == [s[0]] + ReplaceDashes(s[1..])
  {
    SpaceRunStops(s, k);
    assert DashMatch(s) == None;
  }
}
