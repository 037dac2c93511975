/** The variant selector: variants grouped by name into one radio group each,
    the out-of-stock rule for an option, the selected value in each group's
    label, and the selector's own copy of the selection. */
module VariantSelector {
  import opened JsRuntime
  import opened JsArray
  import opened ProductTypes

  type Group = (string, seq<ProductVariant>)

  /** The distinct variant names, in order of each name's first occurrence. */
  function NamesInOrder(vs: seq<ProductVariant>): (names: seq<string>)
    ensures forall i, j :: 0 <= i < j < |names| ==> names[i] != names[j]
    ensures forall n :: n in names <==> exists k :: 0 <= k < |vs| && vs[k].name == n
  {
    if vs == [] then []
    else
      var init := vs[..|vs| - 1];
      var names := NamesInOrder(init);
      assert forall k :: 0 <= k < |init| ==> init[k] == vs[k];
      if vs[|vs| - 1].name in names then names else names + [vs[|vs| - 1].name]
  }

  /** The variants named `n`, in input order. */
  function WithName(vs: seq<ProductVariant>, n: string): seq<ProductVariant> {
    Filter(vs, (v: ProductVariant) => v.name == n)
  }

  /** The groups as `Object.entries` lists them: each name with its variants. */
  function GroupsOf(vs: seq<ProductVariant>): (gs: seq<Group>)
    ensures |gs| == |NamesInOrder(vs)|
    ensures forall i :: 0 <= i < |gs| ==> gs[i] == (NamesInOrder(vs)[i], WithName(vs, NamesInOrder(vs)[i]))
  {
    var names := NamesInOrder(vs);
    seq(|names|, i requires 0 <= i < |names| => (names[i], WithName(vs, names[i])))
  }

  /** Appending a variant adds its name at the end when the name is new. */
  lemma NamesStep(s: seq<ProductVariant>, v: ProductVariant)
    ensures NamesInOrder(s + [v]) ==
      if v.name in NamesInOrder(s) then NamesInOrder(s) else NamesInOrder(s) + [v.name]
  {
    assert (s + [v])[..|s|] == s;
  }

  /** Appending a variant extends its own name's list and no other. */
  lemma WithNameStep(s: seq<ProductVariant>, v: ProductVariant, n: string)
    ensures WithName(s + [v], n) == WithName(s, n) + (if v.name == n then [v] else [])
  {
    FilterAppend(s, [v], (u: ProductVariant) => u.name == n);
    assert [v][1..] == [];
  }

  /** A name no variant carries selects no variant. */
  lemma NoneNamed(vs: seq<ProductVariant>, n: string)
    requires n !in NamesInOrder(vs)
    ensures WithName(vs, n) == []
  {
    FilterKeepsNone(vs, (u: ProductVariant) => u.name == n);
  }

  // ---------------------------------------------------------------------
  // The reduce

  /** The reduce's accumulator after the variants `s`: one list per name, the
      keys listed in the order they were opened. */
  ghost predicate Accumulates(s: seq<ProductVariant>, acc: map<string, seq<ProductVariant>>, order: seq<string>) {
    && order == NamesInOrder(s)
    && (forall n :: n in acc <==> n in order)
    && (forall n :: n in acc ==> acc[n] == WithName(s, n))
  }

  /** One step of the reduce keeps the accumulator in step with the variants seen. */
  lemma PushKeeps(s: seq<ProductVariant>, v: ProductVariant, acc: map<string, seq<ProductVariant>>, order: seq<string>)
    requires Accumulates(s, acc, order)
    ensures var withKey := if v.name in acc then acc else acc[v.name := []];
      Accumulates(s + [v], withKey[v.name := withKey[v.name] + [v]],
                  if v.name in acc then order else order + [v.name])
  {
    var withKey := if v.name in acc then acc else acc[v.name := []];
    var next := withKey[v.name := withKey[v.name] + [v]];
    NamesStep(s, v);
    if v.name !in acc {
      NoneNamed(s, v.name);
    }
    forall n | n in next
      ensures next[n] == WithName(s + [v], n)
    {
      WithNameStep(s, v, n);
    }
  }

  /** Reading the finished accumulator in key order gives the groups. */
  lemma AccumulatedGroups(vs: seq<ProductVariant>, acc: map<string, seq<ProductVariant>>, order: seq<string>)
    requires Accumulates(vs, acc, order)
    ensures seq(|order|, k requires 0 <= k < |order| => (order[k], acc[order[k]])) == GroupsOf(vs)
  {
    var gs := seq(|order|, k requires 0 <= k < |order| => (order[k], acc[order[k]]));
    forall k | 0 <= k < |gs|
      ensures gs[k] == GroupsOf(vs)[k]
    {
      assert order[k] in acc;
    }
  }

  /** `variants.reduce(...)`: push each variant onto its name's list, opening
      a list (at the end of the key order) the first time a name is seen. */
  method GroupByName(vs: seq<ProductVariant>) returns (gs: seq<Group>)
    ensures gs == GroupsOf(vs)
  {
    var acc: map<string, seq<ProductVariant>> := map[];
    var order: seq<string> := [];
    var i := 0;
    while i < |vs|
      invariant 0 <= i <= |vs|
      invariant Accumulates(vs[..i], acc, order)
    {
      var v := vs[i];
      PrefixStep(vs, i);
      PushKeeps(vs[..i], v, acc, order);
      if v.name !in acc {
        acc := acc[v.name := []];
        order := order + [v.name];
      }
      acc := acc[v.name := acc[v.name] + [v]];
      i := i + 1;
    }
    assert vs[..i] == vs;
    AccumulatedGroups(vs, acc, order);
    gs := seq(|order|, k requires 0 <= k < |order| => (order[k], acc[order[k]]));
  }

  // ---------------------------------------------------------------------
  // Properties of the grouping

  /** The groups' lists one after the other. */
  function Flatten(gs: seq<Group>): seq<ProductVariant> {
    if gs == [] then [] else gs[0].1 + Flatten(gs[1..])
  }

  lemma {:induction false} FlattenAppend(a: seq<Group>, b: seq<Group>)
    ensures Flatten(a + b) == Flatten(a) + Flatten(b)
  {
    if a == [] {
      assert a + b == b;
    } else {
      assert (a + b)[1..] == a[1..] + b;
      FlattenAppend(a[1..], b);
    }
  }

  /** Pushing `v` onto one list adds `v` to the flattened multiset. */
  lemma {:induction false} FlattenPushOne(gs: seq<Group>, hs: seq<Group>, k: nat, v: ProductVariant)
    requires |gs| == |hs| && k < |gs|
    requires forall i :: 0 <= i < |gs| && i != k ==> hs[i] == gs[i]
    requires hs[k].1 == gs[k].1 + [v]
    ensures multiset(Flatten(hs)) == multiset(Flatten(gs)) + multiset{v}
  {
    if k == 0 {
      assert hs[1..] == gs[1..];
    } else {
      FlattenPushOne(gs[1..], hs[1..], k - 1, v);
    }
  }

  /** Appending a variant whose name is new opens one more group holding it. */
  lemma GroupsStepNew(s: seq<ProductVariant>, v: ProductVariant)
    requires v.name !in NamesInOrder(s)
    ensures GroupsOf(s + [v]) == GroupsOf(s) + [(v.name, [v])]
  {
    NamesStep(s, v);
    var ns := NamesInOrder(s);
    var g0, g1 := GroupsOf(s), GroupsOf(s + [v]);
    assert NamesInOrder(s + [v]) == ns + [v.name];
    assert |g1| == |g0| + 1;
    var r := g0 + [(v.name, [v])];
    forall i | 0 <= i < |ns|
      ensures g1[i] == r[i]
    {
      assert g1[i] == (ns[i], WithName(s + [v], ns[i]));
      assert ns[i] != v.name;
      WithNameStep(s, v, ns[i]);
      assert WithName(s, ns[i]) + [] == WithName(s, ns[i]);
    }
    assert g1[|ns|] == (v.name, WithName(s + [v], v.name));
    WithNameStep(s, v, v.name);
    NoneNamed(s, v.name);
    assert g1[|ns|] == r[|ns|];
  }

  /** Appending a variant whose name is known pushes it onto that group only. */
  lemma GroupsStepKnown(s: seq<ProductVariant>, v: ProductVariant, k: nat)
    requires k < |NamesInOrder(s)| && NamesInOrder(s)[k] == v.name
    ensures |GroupsOf(s + [v])| == |GroupsOf(s)|
    ensures forall i :: 0 <= i < |GroupsOf(s)| && i != k ==> GroupsOf(s + [v])[i] == GroupsOf(s)[i]
    ensures GroupsOf(s + [v])[k].1 == GroupsOf(s)[k].1 + [v]
  {
    NamesStep(s, v);
    var ns := NamesInOrder(s);
    var g0, g1 := GroupsOf(s), GroupsOf(s + [v]);
    assert NamesInOrder(s + [v]) == ns;
    assert |g1| == |g0|;
    forall i | 0 <= i < |ns| && i != k
      ensures g1[i] == g0[i]
    {
      assert g1[i] == (ns[i], WithName(s + [v], ns[i]));
      assert ns[i] != v.name;
      WithNameStep(s, v, ns[i]);
      assert WithName(s, ns[i]) + [] == WithName(s, ns[i]);
    }
    assert g1[k] == (v.name, WithName(s + [v], v.name));
    WithNameStep(s, v, v.name);
  }

  /** Concatenating the groups gives a permutation of the variants. */
  lemma {:induction false} GroupsPermute(vs: seq<ProductVariant>)
    ensures multiset(Flatten(GroupsOf(vs))) == multiset(vs)
    ensures |Flatten(GroupsOf(vs))| == |vs|
  {
    if vs != [] {
      var s := vs[..|vs| - 1];
      var v := vs[|vs| - 1];
      assert vs == s + [v];
      GroupsPermute(s);
      if v.name in NamesInOrder(s) {
        var k :| 0 <= k < |NamesInOrder(s)| && NamesInOrder(s)[k] == v.name;
        GroupsStepKnown(s, v, k);
        FlattenPushOne(GroupsOf(s), GroupsOf(vs), k, v);
      } else {
        GroupsStepNew(s, v);
        FlattenAppend(GroupsOf(s), [(v.name, [v])]);
        assert Flatten([(v.name, [v])]) == [v];
      }
    }
    assert |multiset(Flatten(GroupsOf(vs)))| == |multiset(vs)|;
  }

  /** A variant is in a group exactly when the group carries its name. */
  lemma InGroupIffNamed(vs: seq<ProductVariant>, i: nat, j: nat)
    requires i < |GroupsOf(vs)| && j < |vs|
    ensures vs[j] in GroupsOf(vs)[i].1 <==> GroupsOf(vs)[i].0 == vs[j].name
  {
  }

  /** Each variant is in exactly one group. */
  lemma EachVariantInOneGroup(vs: seq<ProductVariant>, j: nat)
    requires j < |vs|
    ensures exists i :: 0 <= i < |GroupsOf(vs)| && vs[j] in GroupsOf(vs)[i].1
    ensures forall a, b :: (0 <= a < |GroupsOf(vs)| && 0 <= b < |GroupsOf(vs)|
              && vs[j] in GroupsOf(vs)[a].1 && vs[j] in GroupsOf(vs)[b].1) ==> a == b
  {
    var gs := GroupsOf(vs);
    var names := NamesInOrder(vs);
    assert vs[j].name in names;
    var i :| 0 <= i < |names| && names[i] == vs[j].name;
    InGroupIffNamed(vs, i, j);
    forall a, b | 0 <= a < |gs| && 0 <= b < |gs| && vs[j] in gs[a].1 && vs[j] in gs[b].1
      ensures a == b
    {
      InGroupIffNamed(vs, a, j);
      InGroupIffNamed(vs, b, j);
    }
  }

  /** Some variant named `n` comes before every variant named `m`. */
  ghost predicate NamedBefore(vs: seq<ProductVariant>, n: string, m: string) {
    exists k :: 0 <= k < |vs| && vs[k].name == n && forall l :: 0 <= l < |vs| && vs[l].name == m ==> k < l
  }

  /** A variant appended at the end does not disturb an earlier precedence. */
  lemma NamedBeforeExtend(s: seq<ProductVariant>, v: ProductVariant, n: string, m: string)
    requires NamedBefore(s, n, m)
    ensures NamedBefore(s + [v], n, m)
  {
    var vs := s + [v];
    var k :| 0 <= k < |s| && s[k].name == n && forall l :: 0 <= l < |s| && s[l].name == m ==> k < l;
    assert vs[k] == s[k];
    forall l | 0 <= l < |vs| && vs[l].name == m
      ensures k < l
    {
      if l < |s| {
        assert vs[l] == s[l];
      }
    }
  }

  /** A name seen before precedes a name that first appears at the end. */
  lemma NamedBeforeNew(s: seq<ProductVariant>, v: ProductVariant, n: string)
    requires n in NamesInOrder(s) && v.name !in NamesInOrder(s)
    ensures NamedBefore(s + [v], n, v.name)
  {
    var vs := s + [v];
    var k :| 0 <= k < |s| && s[k].name == n;
    assert vs[k] == s[k];
    assert forall l :: 0 <= l < |s| ==> vs[l] == s[l] && s[l].name != v.name;
    forall l | 0 <= l < |vs| && vs[l].name == v.name
      ensures k < l
    {
    }
  }

  /** The distinct names come in order of first occurrence. */
  lemma {:induction false} NamesInFirstOccurrenceOrder(vs: seq<ProductVariant>, a: nat, b: nat)
    requires a < b < |NamesInOrder(vs)|
    ensures NamedBefore(vs, NamesInOrder(vs)[a], NamesInOrder(vs)[b])
  {
    var s := vs[..|vs| - 1];
    var v := vs[|vs| - 1];
    assert vs == s + [v];
    NamesStep(s, v);
    var names := NamesInOrder(s);
    if b < |names| {
      NamesInFirstOccurrenceOrder(s, a, b);
      NamedBeforeExtend(s, v, names[a], names[b]);
    } else {
      NamedBeforeNew(s, v, names[a]);
    }
  }

  /** The groups come in order of each name's first occurrence. */
  lemma GroupsInFirstOccurrenceOrder(vs: seq<ProductVariant>, a: nat, b: nat)
    requires a < b < |GroupsOf(vs)|
    ensures NamedBefore(vs, GroupsOf(vs)[a].0, GroupsOf(vs)[b].0)
  {
    NamesInFirstOccurrenceOrder(vs, a, b);
  }

  // ---------------------------------------------------------------------
  // Rendering

  /** Nothing is rendered for an empty variant list; otherwise one radio
      group per name. */
  function Render(vs: seq<ProductVariant>): (r: Option<seq<Group>>)
    ensures r.None? <==> vs == []
    ensures r.Some? ==> r.value == GroupsOf(vs) && |r.value| > 0
  {
    if vs == [] then None
    else
      assert vs[0].name in NamesInOrder(vs);
      Some(GroupsOf(vs))
  }

  /** One radio option as drawn, in any of the four styles. */
  datatype OptionView = OptionView(id: string, text: string, isSelected: bool,
                                   isOutOfStock: bool, isDisabled: bool)

  /** A variant with no stock left is out of stock. */
  predicate IsOutOfStock(v: ProductVariant) {
    v.stock <= 0
  }

  /** The options of one group: an option is selected when its id is the
      selection, and disabled when out of stock or when the whole selector is. */
  function OptionsOf(group: seq<ProductVariant>, selected: Option<string>, disabled: bool)
    : (os: seq<OptionView>)
    ensures |os| == |group|
    ensures forall i :: 0 <= i < |os| ==>
      && os[i].id == group[i].id && os[i].text == group[i].value
      && (os[i].isSelected <==> selected == Some(group[i].id))
      && (os[i].isOutOfStock <==> group[i].stock <= 0)
      && (os[i].isDisabled <==> group[i].stock <= 0 || disabled)
  {
    seq(|group|, i requires 0 <= i < |group| =>
      var v := group[i];
      OptionView(v.id, v.value, selected == Some(v.id), IsOutOfStock(v), IsOutOfStock(v) || disabled))
  }

  /** With distinct ids at most one option of a group is selected, and none
      while nothing is selected. */
  lemma AtMostOneSelected(group: seq<ProductVariant>, selected: Option<string>, disabled: bool)
    requires forall i, j :: 0 <= i < j < |group| ==> group[i].id != group[j].id
    ensures var os := OptionsOf(group, selected, disabled);
      && (forall i, j :: 0 <= i < |os| && 0 <= j < |os| && os[i].isSelected && os[j].isSelected ==> i == j)
      && (selected.None? ==> forall i :: 0 <= i < |os| ==> !os[i].isSelected)
  {
  }

  /** The selected value beside a group's name: shown when the selection is
      a non-empty id found in this group. */
  function GroupLabelValue(group: seq<ProductVariant>, selected: Option<string>): (r: Option<string>)
    ensures r.Some? <==> TruthyString(selected) && exists i :: 0 <= i < |group| && group[i].id == selected.value
    ensures r.Some? ==> exists i :: 0 <= i < |group| && group[i].id == selected.value && group[i].value == r.value
  {
    if !TruthyString(selected) then None
    else match Find(group, (v: ProductVariant) => v.id == selected.value)
      case None => None
      case Some(v) => Some(v.value)
  }

  /** Only the group holding the selected variant shows a value in its label. */
  lemma LabelOnlyInOwnGroup(vs: seq<ProductVariant>, i: nat, id: string)
    requires i < |GroupsOf(vs)|
    ensures GroupLabelValue(GroupsOf(vs)[i].1, Some(id)).Some? <==>
      id != "" && exists j :: 0 <= j < |vs| && vs[j].id == id && vs[j].name == GroupsOf(vs)[i].0
  {
    var g := GroupsOf(vs)[i];
    if GroupLabelValue(g.1, Some(id)).Some? {
      var k :| 0 <= k < |g.1| && g.1[k].id == id;
      assert g.1[k] in vs;
      var j :| 0 <= j < |vs| && vs[j] == g.1[k];
    }
    if id != "" && exists j :: 0 <= j < |vs| && vs[j].id == id && vs[j].name == g.0 {
      var j :| 0 <= j < |vs| && vs[j].id == id && vs[j].name == g.0;
      InGroupIffNamed(vs, i, j);
      var k :| 0 <= k < |g.1| && g.1[k] == vs[j];
    }
  }

  // ---------------------------------------------------------------------
  // The selector's own selection

  class SelectorState {
    var selected: Option<string>

    /** `useState(value)`. */
    constructor (value: Option<string>)
      ensures selected == value
    {
      selected := value;
    }

    /** The effect on a new `value` prop: only a defined value overwrites. */
    method SyncValue(value: Option<string>)
      modifies this
      ensures selected == if value.Some? then value else old(selected)
    {
      if value.Some? {
        selected := value;
      }
    }

    /** `handleChange(id)`: select `id` and report it to `onChange`, when the
        parent passed one. */
    method HandleChange(id: string, hasOnChange: bool) returns (reported: Option<string>)
      modifies this
      ensures selected == Some(id)
      ensures reported == if hasOnChange then Some(id) else None
    {
      selected := Some(id);
      reported := None;
      if hasOnChange {
        reported := Some(id);
      }
    }
  }
}
