/** The bubble map of project locations: a two-level tree of counties and their towns,
    a check box per node name, and the towns shown on the map. Checking a node checks
    (or unchecks) its whole subtree in a copy of the check table. */
module BubbleMap {
  import opened Common

  /** A county or town: its name, whether it has map coordinates, and its children
      (none when the member is absent). */
  datatype Node = Node(name: string, hasCoordinates: bool, children: seq<Node>)

  /** The names in a subtree. */
  function Names(n: Node): set<string>
    decreases n, 1
  {
    {n.name} + NamesOf(n.children)
  }

  /** The names in a list of subtrees. */
  function NamesOf(nodes: seq<Node>): set<string>
    decreases nodes, 0
  {
    if nodes == [] then {} else NamesOf(nodes[..|nodes| - 1]) + Names(nodes[|nodes| - 1])
  }

  /** The check table with every name of `names` set to `state` and every other entry kept. */
  function Assign(checked: map<string, bool>, names: set<string>, state: bool): (r: map<string, bool>)
    ensures r.Keys == checked.Keys + names
    ensures forall k :: k in names ==> r[k] == state
    ensures forall k :: k in checked && k !in names ==> r[k] == checked[k]
  {
    map k | k in checked.Keys + names :: if k in names then state else checked[k]
  }

  lemma AssignTwice(checked: map<string, bool>, a: set<string>, b: set<string>, state: bool)
    ensures Assign(Assign(checked, a, state), b, state) == Assign(checked, a + b, state)
  {
  }

  lemma AssignNothing(checked: map<string, bool>, names: set<string>, state: bool)
    requires names == {}
    ensures Assign(checked, names, state) == checked
  {
  }

  lemma AssignOne(checked: map<string, bool>, name: string, state: bool)
    ensures checked[name := state] == Assign(checked, {name}, state)
  {
  }

  lemma NamesOfSnoc(nodes: seq<Node>, i: nat)
    requires i < |nodes|
    ensures NamesOf(nodes[..i + 1]) == NamesOf(nodes[..i]) + Names(nodes[i])
  {
    assert nodes[..i + 1][..i] == nodes[..i];
  }

  /** setNodeCheck: the node and, recursively, each of its children in turn. */
  method SetNodeCheck(updated: map<string, bool>, n: Node, state: bool) returns (r: map<string, bool>)
    ensures r == Assign(updated, Names(n), state)
    decreases n, 1
  {
    r := updated[n.name := state];
    AssignOne(updated, n.name, state);
    r := SetChildrenCheck(r, n.children, state);
    AssignTwice(updated, {n.name}, NamesOf(n.children), state);
  }

  /** The forEach over the children. */
  method SetChildrenCheck(updated: map<string, bool>, children: seq<Node>, state: bool) returns (r: map<string, bool>)
    ensures r == Assign(updated, NamesOf(children), state)
    decreases children, 0
  {
    r := updated;
    for i := 0 to |children|
      invariant r == Assign(updated, NamesOf(children[..i]), state)
    {
      NamesOfSnoc(children, i);
      AssignTwice(updated, NamesOf(children[..i]), Names(children[i]), state);
      r := SetNodeCheck(r, children[i], state);
    }
    assert children[..|children|] == children;
  }

  /** handleCheck: a copy of the table with the node's whole subtree set to the state;
      the other entries are unchanged. */
  method HandleCheck(checked: map<string, bool>, node: Node, state: bool) returns (updated: map<string, bool>)
    ensures updated.Keys == checked.Keys + Names(node)
    ensures forall k :: k in Names(node) ==> updated[k] == state
    ensures forall k :: k in checked && k !in Names(node) ==> updated[k] == checked[k]
  {
    updated := SetNodeCheck(checked, node, state);
  }

  /** One node of setAllChecked: its name, then its subtrees. */
  lemma CheckAllStep(acc: map<string, bool>, before: set<string>, n: Node)
    ensures Assign(Assign(acc, before, true)[n.name := true], NamesOf(n.children), true)
            == Assign(acc, before + Names(n), true)
  {
    AssignOne(Assign(acc, before, true), n.name, true);
    AssignTwice(acc, before, {n.name}, true);
    AssignTwice(acc, before + {n.name}, NamesOf(n.children), true);
  }

  /** setAllChecked: every node of the trees, depth first, set to true. */
  method SetAllChecked(acc: map<string, bool>, nodes: seq<Node>) returns (r: map<string, bool>)
    ensures r == Assign(acc, NamesOf(nodes), true)
    decreases nodes
  {
    r := acc;
    for i := 0 to |nodes|
      invariant r == Assign(acc, NamesOf(nodes[..i]), true)
    {
      var n := nodes[i];
      NamesOfSnoc(nodes, i);
      CheckAllStep(acc, NamesOf(nodes[..i]), n);
      r := r[n.name := true];
      if |n.children| > 0 {
        r := SetAllChecked(r, n.children);
      } else {
        AssignNothing(r, NamesOf(n.children), true);
      }
    }
    assert nodes[..|nodes|] == nodes;
  }

  /** The initial table: exactly the names in the trees, all checked. */
  method InitialChecks(counties: seq<Node>) returns (checked: map<string, bool>)
    ensures checked.Keys == NamesOf(counties)
    ensures forall k :: k in checked ==> checked[k]
  {
    checked := SetAllChecked(map[], counties);
  }

  /** The towns of the counties that have coordinates, county by county. */
  function ExtractTowns(counties: seq<Node>): (r: seq<Node>)
    ensures forall t :: t in r <==> exists c :: c in counties && t in c.children && t.hasCoordinates
  {
    if counties == [] then []
    else
      var last := counties[|counties| - 1];
      ExtractTowns(counties[..|counties| - 1]) + Filter(last.children, (t: Node) => t.hasCoordinates)
  }

  /** `checkedItems[name]` is truthy. */
  predicate IsChecked(checked: map<string, bool>, name: string) {
    name in checked && checked[name]
  }

  /** The checked towns with coordinates, county by county. */
  function CheckedTowns(counties: seq<Node>, checked: map<string, bool>): (r: seq<Node>)
    ensures forall t :: t in r <==> t in ExtractTowns(counties) && IsChecked(checked, t.name)
  {
    if counties == [] then []
    else
      var last := counties[|counties| - 1];
      CheckedTowns(counties[..|counties| - 1], checked)
        + Filter(last.children, (t: Node) => t.hasCoordinates && IsChecked(checked, t.name))
  }

  /** The towns on the map: all of them while nothing is checked, else the checked ones. */
  function ShownTowns(counties: seq<Node>, checked: map<string, bool>): (r: seq<Node>)
    ensures (forall k :: k in checked ==> !checked[k]) ==> r == ExtractTowns(counties)
    ensures (exists k :: IsChecked(checked, k)) ==>
              forall t :: t in r <==> t in ExtractTowns(counties) && IsChecked(checked, t.name)
    ensures (exists k :: IsChecked(checked, k)) ==>
              r == Filter(ExtractTowns(counties), (t: Node) => IsChecked(checked, t.name))
  {
    CheckedTownsFilterTowns(counties, checked, (t: Node) => IsChecked(checked, t.name));
    if forall k :: k in checked ==> !checked[k] then ExtractTowns(counties) else CheckedTowns(counties, checked)
  }

  /** The towns of a list of counties are those of its first part followed by those of the rest. */
  lemma {:induction false} ExtractTownsAppend(a: seq<Node>, b: seq<Node>)
    ensures ExtractTowns(a + b) == ExtractTowns(a) + ExtractTowns(b)
    decreases |b|
  {
    if b == [] {
      assert a + b == a;
    } else {
      var init, c := b[..|b| - 1], b[|b| - 1];
      assert a + b == (a + init) + [c];
      assert b == init + [c];
      ExtractTownsSnoc(a + init, c);
      ExtractTownsSnoc(init, c);
      ExtractTownsAppend(a, init);
      AppendAssoc(ExtractTowns(a), ExtractTowns(init), Filter(c.children, (t: Node) => t.hasCoordinates));
    }
  }

  lemma ExtractTownsSnoc(counties: seq<Node>, c: Node)
    ensures ExtractTowns(counties + [c]) == ExtractTowns(counties) + Filter(c.children, (t: Node) => t.hasCoordinates)
  {
    assert (counties + [c])[..|counties|] == counties;
  }

  /** One county contributes its towns with coordinates, in their order. */
  lemma ExtractTownsOne(c: Node)
    ensures ExtractTowns([c]) == Filter(c.children, (t: Node) => t.hasCoordinates)
  {
    assert [c][..0] == [];
  }

  /** The checked towns are the extracted towns with an unchecked one dropped: same order,
      same repetitions. */
  lemma {:induction false} CheckedTownsFilterTowns(counties: seq<Node>, checked: map<string, bool>, ticked: Node -> bool)
    requires forall t :: ticked(t) == IsChecked(checked, t.name)
    ensures CheckedTowns(counties, checked) == Filter(ExtractTowns(counties), ticked)
    decreases |counties|
  {
    if counties != [] {
      var init := counties[..|counties| - 1];
      var last := counties[|counties| - 1];
      var located := (t: Node) => t.hasCoordinates;
      CheckedTownsFilterTowns(init, checked, ticked);
      FilterAppend(ExtractTowns(init), Filter(last.children, located), ticked);
      FilterOfFilter(last.children, located, ticked, (t: Node) => t.hasCoordinates && IsChecked(checked, t.name));
    }
  }

  /** A town's name is among the tree's names. */
  lemma {:induction false} TownNamed(counties: seq<Node>, c: Node, t: Node)
    requires c in counties && t in c.children
    ensures t.name in NamesOf(counties)
    decreases counties
  {
    var init := counties[..|counties| - 1];
    if c == counties[|counties| - 1] {
      ChildNamed(c.children, t);
    } else {
      assert c in init;
      TownNamed(init, c, t);
    }
  }

  lemma {:induction false} ChildNamed(nodes: seq<Node>, t: Node)
    requires t in nodes
    ensures t.name in NamesOf(nodes)
    decreases nodes
  {
    if t != nodes[|nodes| - 1] {
      assert t in nodes[..|nodes| - 1];
      ChildNamed(nodes[..|nodes| - 1], t);
    }
  }

  /** After the initial check-all, the map shows every town with coordinates. */
  lemma AllCheckedShowsEveryTown(counties: seq<Node>, checked: map<string, bool>)
    requires checked.Keys == NamesOf(counties) && forall k :: k in checked ==> checked[k]
    ensures forall t :: t in ShownTowns(counties, checked) <==> t in ExtractTowns(counties)
  {
    forall t | t in ExtractTowns(counties) ensures IsChecked(checked, t.name) {
      var c :| c in counties && t in c.children && t.hasCoordinates;
      TownNamed(counties, c, t);
    }
  }

  // ---------------------------------------------------------------------------
  // Department colours
  // ---------------------------------------------------------------------------

  const DefaultColors: seq<string> := ["#744EC2", "#138DFF", "#D64550", "#6B007B", "#E66C37", "#FF8C00",
                                       "#D9B301", "#32CD32", "#12239E", "#E044A7", "#9370DB"]

  datatype Department = Department(name: string, color: string)

  /** The departments with a colour by position, the palette repeating. */
  function Departments(names: seq<string>): (r: seq<Department>)
    ensures |r| == |names|
    ensures forall i :: 0 <= i < |r| ==> r[i] == Department(names[i], DefaultColors[i % |DefaultColors|])
  {
    seq(|names|, i requires 0 <= i < |names| => Department(names[i], DefaultColors[i % |DefaultColors|]))
  }

  /** Departments fewer than eleven places apart get different colours; eleven apart, the same. */
  lemma ColoursRepeatEveryEleven(names: seq<string>, i: nat, j: nat)
    requires i < j < |names|
    ensures var r := Departments(names);
            (j - i < |DefaultColors| ==> r[i].color != r[j].color)
            && (j - i == |DefaultColors| ==> r[i].color == r[j].color)
  {
    var n := |DefaultColors|;
    assert forall a, b :: 0 <= a < b < n ==> DefaultColors[a] != DefaultColors[b];
    if j - i < n {
      assert i % n != j % n;
    } else if j - i == n {
      assert j % n == i % n;
    }
  }
}
