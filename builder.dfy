/** The rules builder: an append-only registry of rules that hands out
    sequential ids and attaches each new rule under the rule whose id it is given. */
module Builder {
  import opened Values
  import opened Rules

  /** The exceptions `_add_new_rule` can raise after appending the rule: an
      `IndexError` for a parent id below the registry's negative range, and the
      `NotImplementedError` of `add_child` on a scalar rule. */
  datatype Fault = IndexOutOfRange | LeafCannotHaveChildren

  /** What a `build_*` call does: return the new rule's id, or raise. */
  datatype Added = Added(id: nat) | Raised(fault: Fault)

  /** The registry as plain values: each rule's class and parameters, value, path,
      and the id of the rule it was attached under. */
  datatype Entry = Entry(kind: RuleKind, value: Value, path: string, parent: Option<nat>)

  /** Where rule number `n` is attached, the registry holding `n + 1` rules once it
      has been appended: nowhere when no parent id is given or the id is not below
      the registry length, otherwise at that index, Python's negative indices counting
      from the end; an id below the negative range is an index error. */
  datatype Target = Detached | Under(index: nat) | OutOfRange

  function TargetOf(parentId: Option<int>, n: nat): (t: Target)
    ensures t.Under? ==> t.index <= n
    ensures t.Under? && t.index == n <==> parentId == Some(n) || parentId == Some(-1)
    ensures t.Detached? <==> parentId.None? || parentId.value > n
    ensures t.OutOfRange? <==> parentId.Some? && parentId.value < -(n + 1)
  {
    if parentId.None? || parentId.value >= n + 1 then Detached
    else if parentId.value >= 0 then Under(parentId.value)
    else if parentId.value >= -(n + 1) then Under(n + 1 + parentId.value)
    else OutOfRange
  }

  /** `_add_new_rule` on the registry as values: the entry is always appended; it is
      attached when its target is a composite rule, itself included. */
  function Register(entries: seq<Entry>, kind: RuleKind, value: Value, path: string, parentId: Option<int>): (result: (seq<Entry>, Added))
    ensures |result.0| == |entries| + 1 && result.0[..|entries|] == entries
    ensures var e := result.0[|entries|]; e.kind == kind && e.value == value && e.path == path
    ensures result.1.Added? ==> result.1.id == |entries|
    ensures result.0[|entries|].parent.Some? <==> result.1.Added? && TargetOf(parentId, |entries|).Under?
    ensures result.0[|entries|].parent.Some? ==> result.0[|entries|].parent.value == TargetOf(parentId, |entries|).index
    ensures result.1 == Raised(IndexOutOfRange) <==> TargetOf(parentId, |entries|).OutOfRange?
    ensures var t := TargetOf(parentId, |entries|);
            result.1 == Raised(LeafCannotHaveChildren) <==>
              t.Under? && !(if t.index < |entries| then entries[t.index].kind else kind).IsComposite()
    ensures TargetOf(parentId, |entries|).Detached? ==> result.1 == Added(|entries|)
  {
    var n := |entries|;
    var t := TargetOf(parentId, n);
    var parentKind := if t.Under? && t.index < n then entries[t.index].kind else kind;
    if t.OutOfRange? then
      (entries + [Entry(kind, value, path, None)], Raised(IndexOutOfRange))
    else if t.Under? && !parentKind.IsComposite() then
      (entries + [Entry(kind, value, path, None)], Raised(LeafCannotHaveChildren))
    else if t.Under? then
      (entries + [Entry(kind, value, path, Some(t.index))], Added(n))
    else
      (entries + [Entry(kind, value, path, None)], Added(n))
  }

  /** `Register` when the rule is attached at index `p`: attached if the rule there
      (the new rule itself when `p` is its own id) is composite, otherwise the
      entry stays detached and `add_child` raises. */
  lemma RegisterUnder(entries: seq<Entry>, kind: RuleKind, value: Value, path: string, parentId: Option<int>, p: nat)
    requires TargetOf(parentId, |entries|) == Under(p)
    ensures var composite := (if p < |entries| then entries[p].kind else kind).IsComposite();
            Register(entries, kind, value, path, parentId) ==
              if composite then (entries + [Entry(kind, value, path, Some(p))], Added(|entries|))
              else (entries + [Entry(kind, value, path, None)], Raised(LeafCannotHaveChildren))
  {
  }

  // ---------------------------------------------------------------------------
  // The parent relation of a registry

  /** Every attached rule sits below its parent in the registry. */
  predicate ParentsBelow(parents: seq<Option<nat>>) {
    forall k :: 0 <= k < |parents| && parents[k].Some? ==> parents[k].value < k
  }

  /** Rule `j` is rule `i` or lies below it. */
  predicate Descends(parents: seq<Option<nat>>, j: nat, i: nat)
    requires ParentsBelow(parents) && j < |parents|
    decreases j
  {
    j == i || (parents[j].Some? && Descends(parents, parents[j].value, i))
  }

  lemma {:induction false} DescendsBelow(parents: seq<Option<nat>>, j: nat, i: nat)
    requires ParentsBelow(parents) && j < |parents| && Descends(parents, j, i)
    ensures i <= j
    decreases j
  {
    if j != i {
      DescendsBelow(parents, parents[j].value, i);
    }
  }

  lemma {:induction false} DescendsTransitive(parents: seq<Option<nat>>, k: nat, j: nat, i: nat)
    requires ParentsBelow(parents) && k < |parents| && j < |parents|
    requires Descends(parents, k, j) && Descends(parents, j, i)
    ensures Descends(parents, k, i)
    decreases k
  {
    if k != j {
      DescendsTransitive(parents, parents[k].value, j, i);
    }
  }

  /** The rules above a given rule form a chain. */
  lemma {:induction false} DescendsLinear(parents: seq<Option<nat>>, m: nat, a: nat, b: nat)
    requires ParentsBelow(parents) && m < |parents| && a < |parents| && b < |parents|
    requires Descends(parents, m, a) && Descends(parents, m, b)
    ensures Descends(parents, a, b) || Descends(parents, b, a)
    decreases m
  {
    if m != a && m != b {
      DescendsLinear(parents, parents[m].value, a, b);
    }
  }

  /** When every entry but the first is attached, every entry descends from the first. */
  lemma {:induction false} DescendsFromRoot(parents: seq<Option<nat>>, j: nat)
    requires ParentsBelow(parents) && j < |parents|
    requires forall k :: 0 < k < |parents| ==> parents[k].Some?
    ensures Descends(parents, j, 0)
    decreases j
  {
    if j != 0 {
      DescendsFromRoot(parents, parents[j].value);
    }
  }

  /** Appending an entry does not change the relation between earlier rules. */
  lemma {:induction false} DescendsAppend(parents: seq<Option<nat>>, x: Option<nat>, j: nat, i: nat)
    requires ParentsBelow(parents) && ParentsBelow(parents + [x]) && j < |parents|
    ensures Descends(parents + [x], j, i) == Descends(parents, j, i)
    decreases j
  {
    if j != i && parents[j].Some? {
      assert (parents + [x])[j] == parents[j];
      DescendsAppend(parents, x, parents[j].value, i);
    }
  }

  /** The rules attached under rule `i`. */
  ghost function ChildrenOf(rules: seq<Rule>, parents: seq<Option<nat>>, i: nat): set<Rule>
    requires |parents| == |rules|
  {
    set j | 0 <= j < |rules| && parents[j] == Some(i) :: rules[j]
  }

  /** Rule `i` and every rule below it. */
  ghost function SubtreeOf(rules: seq<Rule>, parents: seq<Option<nat>>, i: nat): set<Rule>
    requires |parents| == |rules| && ParentsBelow(parents)
  {
    set j | 0 <= j < |rules| && Descends(parents, j, i) :: rules[j]
  }

  lemma ChildrenOfAppend(rules: seq<Rule>, parents: seq<Option<nat>>, r: Rule, x: Option<nat>, i: nat)
    requires |parents| == |rules|
    ensures ChildrenOf(rules + [r], parents + [x], i) == ChildrenOf(rules, parents, i) + (if x == Some(i) then {r} else {})
  {
    var rs, ps := rules + [r], parents + [x];
    forall m | m in ChildrenOf(rs, ps, i)
      ensures m in ChildrenOf(rules, parents, i) + (if x == Some(i) then {r} else {})
    {
      var j :| 0 <= j < |rs| && ps[j] == Some(i) && rs[j] == m;
      if j < |rules| {
        assert parents[j] == Some(i) && rules[j] == m;
      }
    }
    forall m | m in ChildrenOf(rules, parents, i) ensures m in ChildrenOf(rs, ps, i) {
      var j :| 0 <= j < |rules| && parents[j] == Some(i) && rules[j] == m;
      assert ps[j] == Some(i) && rs[j] == m;
    }
    if x == Some(i) {
      assert ps[|rules|] == Some(i) && rs[|rules|] == r;
    }
  }

  lemma SubtreeOfAppend(rules: seq<Rule>, parents: seq<Option<nat>>, r: Rule, x: Option<nat>, i: nat)
    requires |parents| == |rules| && ParentsBelow(parents) && ParentsBelow(parents + [x])
    ensures SubtreeOf(rules + [r], parents + [x], i) ==
              SubtreeOf(rules, parents, i) + (if Descends(parents + [x], |rules|, i) then {r} else {})
  {
    var rs, ps := rules + [r], parents + [x];
    forall m | m in SubtreeOf(rs, ps, i)
      ensures m in SubtreeOf(rules, parents, i) + (if Descends(ps, |rules|, i) then {r} else {})
    {
      var j :| 0 <= j < |rs| && Descends(ps, j, i) && rs[j] == m;
      if j < |rules| {
        DescendsAppend(parents, x, j, i);
        assert rules[j] == m;
      }
    }
    forall m | m in SubtreeOf(rules, parents, i) ensures m in SubtreeOf(rs, ps, i) {
      var j :| 0 <= j < |rules| && Descends(parents, j, i) && rules[j] == m;
      DescendsAppend(parents, x, j, i);
      assert Descends(ps, j, i) && rs[j] == m;
    }
    if Descends(ps, |rules|, i) {
      assert rs[|rules|] == r;
    }
  }

  /** The registry as values. */
  ghost function EntriesOf(rules: seq<Rule>, parents: seq<Option<nat>>): (es: seq<Entry>)
    requires |parents| == |rules|
    ensures |es| == |rules|
  {
    seq(|rules|, i requires 0 <= i < |rules| => Entry(rules[i].kind, rules[i].value, rules[i].path, parents[i]))
  }

  lemma EntriesOfAppend(rules: seq<Rule>, parents: seq<Option<nat>>, r: Rule, x: Option<nat>)
    requires |parents| == |rules|
    ensures EntriesOf(rules + [r], parents + [x]) == EntriesOf(rules, parents) + [Entry(r.kind, r.value, r.path, x)]
  {
  }

  /** The registry is a forest: rules are distinct, each attached rule sits below
      a composite parent, the children `cs[i]` of rule `i` are exactly the rules
      attached under it, and its subtree `reprs[i]` is every rule descending from it. */
  ghost predicate Forest(rules: seq<Rule>, parents: seq<Option<nat>>, cs: seq<set<Rule>>, reprs: seq<set<Rule>>) {
    |parents| == |rules| == |cs| == |reprs| &&
    ParentsBelow(parents) &&
    (forall i, j :: 0 <= i < j < |rules| ==> rules[i] != rules[j]) &&
    (forall j :: 0 <= j < |rules| && parents[j].Some? ==> rules[parents[j].value].kind.IsComposite()) &&
    (forall i :: 0 <= i < |rules| ==> cs[i] == ChildrenOf(rules, parents, i) && reprs[i] == SubtreeOf(rules, parents, i))
  }

  /** The children once rule `r` has been appended under `x`. */
  function GrownChildren(cs: seq<set<Rule>>, r: Rule, x: Option<nat>): (cs': seq<set<Rule>>)
    ensures |cs'| == |cs| + 1
  {
    seq(|cs| + 1, i requires 0 <= i <= |cs| =>
      (if i < |cs| then cs[i] else {}) + (if x == Some(i) then {r} else {}))
  }

  /** The subtrees once rule `r` has been appended under `x`: the subtree of every
      earlier rule `x` descends from gains `r`. */
  ghost function GrownReprs(parents: seq<Option<nat>>, reprs: seq<set<Rule>>, r: Rule, x: Option<nat>): (rs: seq<set<Rule>>)
    requires |reprs| == |parents| && ParentsBelow(parents)
    ensures |rs| == |reprs| + 1
  {
    seq(|reprs| + 1, i requires 0 <= i <= |reprs| =>
      if i == |reprs| then {r}
      else reprs[i] + (if x.Some? && x.value < |reprs| && Descends(parents, x.value, i) then {r} else {}))
  }

  /** Adding `r` to the children of rule `p` of a registry that has just appended `r`
      detached gives the children of `r` appended under `p`. */
  lemma ChildrenUnder(cs: seq<set<Rule>>, r: Rule, p: nat, cs0: seq<set<Rule>>, cs1: seq<set<Rule>>)
    requires cs0 == GrownChildren(cs, r, None) && p < |cs0| == |cs1|
    requires cs1[p] == cs0[p] + {r} && forall i | 0 <= i < |cs1| && i != p :: cs1[i] == cs0[i]
    ensures cs1 == GrownChildren(cs, r, Some(p))
  {
    assert forall i | 0 <= i < |cs1| :: cs1[i] == GrownChildren(cs, r, Some(p))[i];
  }

  /** Adding `r` to the subtree of every rule that `p` descends from, in a registry
      that has just appended `r` detached, gives the subtrees of `r` appended under `p`. */
  lemma ReprsUnder(parents: seq<Option<nat>>, reprs: seq<set<Rule>>, r: Rule, p: nat, rs0: seq<set<Rule>>, rs1: seq<set<Rule>>)
    requires |reprs| == |parents| && ParentsBelow(parents) && p <= |parents|
    requires rs0 == GrownReprs(parents, reprs, r, None) && |rs1| == |rs0|
    requires forall i | 0 <= i < |rs1| ::
               rs1[i] == rs0[i] + (if i < |parents| && p < |parents| && Descends(parents, p, i) then {r} else {})
    ensures rs1 == GrownReprs(parents, reprs, r, Some(p))
  {
    assert forall i | 0 <= i < |rs1| :: rs1[i] == GrownReprs(parents, reprs, r, Some(p))[i];
  }

  /** After appending rule `r` under `x`, an earlier rule's children and subtree are
      again those the parent relation gives it. */
  lemma EarlierAfterAppend(rules: seq<Rule>, parents: seq<Option<nat>>, cs: seq<set<Rule>>, reprs: seq<set<Rule>>,
                           r: Rule, x: Option<nat>, i: nat)
    requires Forest(rules, parents, cs, reprs) && i < |rules|
    requires x.Some? ==> x.value < |rules|
    ensures ParentsBelow(parents + [x])
    ensures GrownChildren(cs, r, x)[i] == ChildrenOf(rules + [r], parents + [x], i)
    ensures GrownReprs(parents, reprs, r, x)[i] == SubtreeOf(rules + [r], parents + [x], i)
  {
    ChildrenOfAppend(rules, parents, r, x, i);
    SubtreeOfAppend(rules, parents, r, x, i);
    if x.Some? && x.value != i {
      assert Descends(parents + [x], |rules|, i) == Descends(parents + [x], x.value, i);
      DescendsAppend(parents, x, x.value, i);
    }
  }

  /** Appending a fresh rule, detached or under an earlier composite rule, keeps
      the registry a forest. */
  lemma ForestAppend(rules: seq<Rule>, parents: seq<Option<nat>>, cs: seq<set<Rule>>, reprs: seq<set<Rule>>,
                     r: Rule, x: Option<nat>)
    requires Forest(rules, parents, cs, reprs) && r !in rules
    requires x.Some? ==> x.value < |rules| && rules[x.value].kind.IsComposite()
    ensures Forest(rules + [r], parents + [x], GrownChildren(cs, r, x), GrownReprs(parents, reprs, r, x))
  {
    var n := |rules|;
    var rs, ps := rules + [r], parents + [x];
    assert ParentsBelow(ps);
    forall i | 0 <= i < n
      ensures GrownChildren(cs, r, x)[i] == ChildrenOf(rs, ps, i)
      ensures GrownReprs(parents, reprs, r, x)[i] == SubtreeOf(rs, ps, i)
    {
      EarlierAfterAppend(rules, parents, cs, reprs, r, x, i);
    }
    assert ChildrenOf(rs, ps, n) == {} by {
      forall j | 0 <= j < |rs| ensures ps[j] != Some(n) {
      }
    }
    assert SubtreeOf(rs, ps, n) == {r} by {
      forall j | 0 <= j < |rs| && Descends(ps, j, n) ensures j == n {
        DescendsBelow(ps, j, n);
      }
      assert Descends(ps, n, n);
    }
    forall j | 0 <= j < |rs| && ps[j].Some? ensures rs[ps[j].value].kind.IsComposite() {
      if j < n {
        assert ps[j] == parents[j];
      }
    }
  }

  // ---------------------------------------------------------------------------
  // The registry

  class RulesBuilder {
    var rules: seq<Rule>
    /** The registry index each rule was attached under. */
    ghost var parents: seq<Option<nat>>

    /** The children of each rule of the registry. */
    ghost function ChildrenSnapshot(): (cs: seq<set<Rule>>)
      reads this, rules
      ensures |cs| == |rules| && forall i :: 0 <= i < |rules| ==> cs[i] == rules[i].children
    {
      seq(|rules|, i reads this, rules requires 0 <= i < |rules| => rules[i].children)
    }

    /** The subtree footprint of each rule of the registry. */
    ghost function ReprSnapshot(): (rs: seq<set<Rule>>)
      reads this, rules
      ensures |rs| == |rules| && forall i :: 0 <= i < |rules| ==> rs[i] == rules[i].Repr
    {
      seq(|rules|, i reads this, rules requires 0 <= i < |rules| => rules[i].Repr)
    }

    /** The registry is a forest of rule trees (see `Forest`). */
    ghost predicate Valid()
      reads this, rules
    {
      Forest(rules, parents, ChildrenSnapshot(), ReprSnapshot())
    }

    /** The registry as values. */
    ghost function Entries(): (es: seq<Entry>)
      reads this
      requires |parents| == |rules|
    {
      EntriesOf(rules, parents)
    }

    constructor ()
      ensures rules == [] && Valid()
    {
      rules := [];
      parents := [];
    }

    /** The subtree of a child of rule `i` lies inside the subtree of rule `i` and
        does not contain it. */
    lemma ChildSubtreeInside(i: nat, j: nat)
      requires Valid() && j < |rules| && parents[j] == Some(i)
      ensures rules[j].Repr <= rules[i].Repr && rules[i] !in rules[j].Repr
    {
      assert Descends(parents, j, i);
      forall m | m in rules[j].Repr ensures m in rules[i].Repr {
        var k :| 0 <= k < |rules| && Descends(parents, k, j) && rules[k] == m;
        DescendsTransitive(parents, k, j, i);
      }
      if rules[i] in rules[j].Repr {
        var k :| 0 <= k < |rules| && Descends(parents, k, j) && rules[k] == rules[i];
        DescendsBelow(parents, k, j);
        assert false;
      }
    }

    /** Two different children of the same rule have disjoint subtrees. */
    lemma SiblingSubtreesDisjoint(i: nat, a: nat, b: nat)
      requires Valid() && a < |rules| && b < |rules| && a != b
      requires parents[a] == Some(i) && parents[b] == Some(i)
      ensures rules[a].Repr !! rules[b].Repr
    {
      if m :| m in rules[a].Repr && m in rules[b].Repr {
        var k :| 0 <= k < |rules| && Descends(parents, k, a) && rules[k] == m;
        var k' :| 0 <= k' < |rules| && Descends(parents, k', b) && rules[k'] == m;
        assert k == k';
        DescendsLinear(parents, k, a, b);
        if Descends(parents, a, b) {
          DescendsBelow(parents, i, b);
        } else {
          DescendsBelow(parents, i, a);
        }
        assert false;
      }
    }

    /** Every rule of a valid registry is the root of a rule tree. */
    lemma {:induction false} RuleIsTree(i: nat)
      requires Valid() && i < |rules|
      ensures rules[i].Valid()
      decreases |rules| - i
    {
      var r := rules[i];
      assert r in r.Repr by {
        assert Descends(parents, i, i);
      }
      forall c | c in r.children
        ensures c in r.Repr && c.Repr <= r.Repr && r !in c.Repr && c.Valid()
      {
        var j :| 0 <= j < |rules| && parents[j] == Some(i) && rules[j] == c;
        RuleIsTree(j);
        ChildSubtreeInside(i, j);
      }
      forall c, d | c in r.children && d in r.children && c != d
        ensures c.Repr !! d.Repr
      {
        var a :| 0 <= a < |rules| && parents[a] == Some(i) && rules[a] == c;
        var b :| 0 <= b < |rules| && parents[b] == Some(i) && rules[b] == d;
        SiblingSubtreesDisjoint(i, a, b);
      }
    }

    /** The `add_child` step of `_add_new_rule`: attach the rule just appended under
        rule `p`, which raises on a scalar rule, and extend the subtrees above `p`. */
    method Attach(p: nat, rule: Rule, ghost oldParents: seq<Option<nat>>, ghost cs: seq<set<Rule>>, ghost reprs: seq<set<Rule>>)
      returns (raised: bool)
      requires |cs| == |reprs| == |oldParents| && ParentsBelow(oldParents) && p <= |oldParents|
      requires |rules| == |oldParents| + 1 && parents == oldParents + [None] && rules[|oldParents|] == rule
      requires forall i, j :: 0 <= i < j < |rules| ==> rules[i] != rules[j]
      requires ChildrenSnapshot() == GrownChildren(cs, rule, None)
      requires ReprSnapshot() == GrownReprs(oldParents, reprs, rule, None)
      modifies this`parents, rules`children, rules`Repr
      ensures raised <==> !rules[p].kind.IsComposite()
      ensures var x := if raised then None else Some(p);
              parents == oldParents + [x] &&
              ChildrenSnapshot() == GrownChildren(cs, rule, x) &&
              ReprSnapshot() == GrownReprs(oldParents, reprs, rule, x)
    {
      var n := |oldParents|;
      ghost var cs0, reprs0 := ChildrenSnapshot(), ReprSnapshot();
      raised := rules[p].AddChild(rule);
      if !raised {
        parents := oldParents + [Some(p)];
        if p < n {
          ExtendSubtrees(p, rule, oldParents);
        }
      }
      if !raised {
        assert forall i | 0 <= i <= n && i != p :: rules[i] != rules[p];
        ChildrenUnder(cs, rule, p, cs0, ChildrenSnapshot());
        ReprsUnder(oldParents, reprs, rule, p, reprs0, ReprSnapshot());
      }
    }

    /** Adds the rule to the subtree of rule `p` and of every rule above it. */
    ghost method ExtendSubtrees(p: nat, rule: Rule, oldParents: seq<Option<nat>>)
      requires |oldParents| + 1 == |rules| && ParentsBelow(oldParents) && p < |oldParents|
      requires forall i, j :: 0 <= i < j < |rules| ==> rules[i] != rules[j]
      modifies rules`Repr
      ensures forall i :: 0 <= i < |rules| ==>
                rules[i].Repr == old(rules[i].Repr) + (if i < |oldParents| && Descends(oldParents, p, i) then {rule} else {})
    {
      forall i | 0 <= i < |oldParents| && Descends(oldParents, p, i) {
        rules[i].Repr := rules[i].Repr + {rule};
      }
    }

    /** The append step of `_add_new_rule`: the new rule joins the registry detached. */
    method Append(rule: Rule)
      requires Valid() && rule !in rules && rule.children == {} && rule.Repr == {rule}
      modifies this
      ensures rules == old(rules) + [rule] && parents == old(parents) + [None]
      ensures forall i, j :: 0 <= i < j < |rules| ==> rules[i] != rules[j]
      ensures ChildrenSnapshot() == GrownChildren(old(ChildrenSnapshot()), rule, None)
      ensures ReprSnapshot() == GrownReprs(old(parents), old(ReprSnapshot()), rule, None)
    {
      ghost var cs, reprs := ChildrenSnapshot(), ReprSnapshot();
      rules := rules + [rule];
      parents := parents + [None];
      assert ChildrenSnapshot() == GrownChildren(cs, rule, None) by {
        forall i | 0 <= i < |rules| ensures ChildrenSnapshot()[i] == GrownChildren(cs, rule, None)[i] {
        }
      }
      assert ReprSnapshot() == GrownReprs(old(parents), reprs, rule, None) by {
        forall i | 0 <= i < |rules| ensures ReprSnapshot()[i] == GrownReprs(old(parents), reprs, rule, None)[i] {
        }
      }
    }

    /** `_add_new_rule`: append the rule, attach it when the parent id is below the
        registry length (negative ids counting from the end), and return its id. */
    method AddNewRule(kind: RuleKind, value: Value, path: string, parentId: Option<int>) returns (outcome: Added)
      requires Valid()
      modifies this, rules`children, rules`Repr
      ensures |parents| == |rules|
      ensures (Entries(), outcome) == Register(old(Entries()), kind, value, path, parentId)
      ensures |rules| == |old(rules)| + 1 && rules[..|old(rules)|] == old(rules)
      ensures fresh(rules[|old(rules)|]) && rules[|old(rules)|].errors == []
      ensures TargetOf(parentId, |old(rules)|) != Under(|old(rules)|) ==> Valid()
      ensures TargetOf(parentId, |old(rules)|) == Under(|old(rules)|) && kind.IsComposite() ==>
                rules[|old(rules)|] in rules[|old(rules)|].children
    {
      var rule := new Rule(kind, value, path);
      outcome := Insert(rule, parentId);
    }

    /** The body of `_add_new_rule` once the rule object exists. */
    method Insert(rule: Rule, parentId: Option<int>) returns (outcome: Added)
      requires Valid() && rule !in rules && rule.children == {} && rule.Repr == {rule}
      modifies this, rules`children, rules`Repr, rule`children, rule`Repr
      ensures |parents| == |rules|
      ensures (Entries(), outcome) == Register(old(Entries()), rule.kind, rule.value, rule.path, parentId)
      ensures rules == old(rules) + [rule]
      ensures TargetOf(parentId, |old(rules)|) != Under(|old(rules)|) ==> Valid()
      ensures TargetOf(parentId, |old(rules)|) == Under(|old(rules)|) && rule.kind.IsComposite() ==> rule in rule.children
    {
      ghost var oldRules, oldParents := rules, parents;
      ghost var cs, reprs := ChildrenSnapshot(), ReprSnapshot();
      ghost var entries := EntriesOf(oldRules, oldParents);
      ghost var kind := rule.kind;
      var n := |rules|;
      Append(rule);
      ghost var x: Option<nat> := None;
      outcome := Added(n);
      if parentId.Some? && parentId.value < |rules| {
        if parentId.value < -|rules| {
          outcome := Raised(IndexOutOfRange);
        } else {
          var p := if parentId.value >= 0 then parentId.value else |rules| + parentId.value;
          assert rules[p].kind == if p < n then entries[p].kind else kind;
          var raised := Attach(p, rule, oldParents, cs, reprs);
          if raised {
            outcome := Raised(LeafCannotHaveChildren);
          } else {
            x := Some(p);
          }
          RegisterUnder(entries, kind, rule.value, rule.path, parentId, p);
        }
      }
      assert rules == oldRules + [rule] && parents == oldParents + [x] &&
             ChildrenSnapshot() == GrownChildren(cs, rule, x) && ReprSnapshot() == GrownReprs(oldParents, reprs, rule, x);
      EntriesOfAppend(oldRules, oldParents, rule, x);
      if TargetOf(parentId, n) != Under(n) {
        ForestAppend(oldRules, oldParents, cs, reprs, rule, x);
      }
    }

    /** `clean`: forget every rule; rules built before stay as they are. */
    method Clean()
      modifies this
      ensures rules == [] && Valid() && Entries() == []
    {
      rules := [];
      parents := [];
    }

    /** `get_product`: the first rule, the root of everything a director builds,
        or None on an empty registry. */
    method GetProduct() returns (product: Option<Rule>)
      requires Valid()
      ensures product.None? <==> rules == []
      ensures product.Some? ==> product.value == rules[0] && product.value.Valid()
    {
      if |rules| > 0 {
        product := Some(rules[0]);
        RuleIsTree(0);
      } else {
        product := None;
      }
    }

    /** A non-empty registry in which every rule but the first is attached. */
    ghost predicate Rooted()
      reads this, rules
    {
      Valid() && |rules| > 0 && forall j :: 0 < j < |rules| ==> parents[j].Some?
    }

    /** When every rule but the first is attached, the product's tree holds the whole
        registry. */
    lemma ProductHoldsAll()
      requires Rooted()
      ensures rules[0].Valid() && rules[0].Repr == set j | 0 <= j < |rules| :: rules[j]
    {
      RuleIsTree(0);
      forall j | 0 <= j < |rules| ensures Descends(parents, j, 0) {
        DescendsFromRoot(parents, j);
      }
    }

    /** `build_integer`: register an `IntegerNode`. */
    method BuildInteger(value: Value, parentId: Option<int>, path: string) returns (outcome: Added)
      requires Valid()
      modifies this, rules`children, rules`Repr
      ensures |parents| == |rules|
      ensures (Entries(), outcome) == Register(old(Entries()), IntegerRule, value, path, parentId)
      ensures |rules| == |old(rules)| + 1 && rules[..|old(rules)|] == old(rules)
      ensures fresh(rules[|old(rules)|]) && rules[|old(rules)|].errors == []
      ensures TargetOf(parentId, |old(rules)|) != Under(|old(rules)|) ==> Valid()
    {
      outcome := AddNewRule(IntegerRule, value, path, parentId);
    }

    /** `build_boolean`: register a `BooleanNode`. */
    method BuildBoolean(value: Value, parentId: Option<int>, path: string) returns (outcome: Added)
      requires Valid()
      modifies this, rules`children, rules`Repr
      ensures |parents| == |rules|
      ensures (Entries(), outcome) == Register(old(Entries()), BooleanRule, value, path, parentId)
      ensures |rules| == |old(rules)| + 1 && rules[..|old(rules)|] == old(rules)
      ensures fresh(rules[|old(rules)|]) && rules[|old(rules)|].errors == []
      ensures TargetOf(parentId, |old(rules)|) != Under(|old(rules)|) ==> Valid()
    {
      outcome := AddNewRule(BooleanRule, value, path, parentId);
    }

    /** `build_string`: register a `StringNode`. */
    method BuildString(value: Value, parentId: Option<int>, path: string) returns (outcome: Added)
      requires Valid()
      modifies this, rules`children, rules`Repr
      ensures |parents| == |rules|
      ensures (Entries(), outcome) == Register(old(Entries()), StringRule, value, path, parentId)
      ensures |rules| == |old(rules)| + 1 && rules[..|old(rules)|] == old(rules)
      ensures fresh(rules[|old(rules)|]) && rules[|old(rules)|].errors == []
      ensures TargetOf(parentId, |old(rules)|) != Under(|old(rules)|) ==> Valid()
    {
      outcome := AddNewRule(StringRule, value, path, parentId);
    }

    /** `build_string_of_unsigned_integers`: register a `StringOfUnsignedInteger`. */
    method BuildStringOfUnsignedIntegers(value: Value, parentId: Option<int>, path: string) returns (outcome: Added)
      requires Valid()
      modifies this, rules`children, rules`Repr
      ensures |parents| == |rules|
      ensures (Entries(), outcome) == Register(old(Entries()), UnsignedIntegerStringRule, value, path, parentId)
      ensures |rules| == |old(rules)| + 1 && rules[..|old(rules)|] == old(rules)
      ensures fresh(rules[|old(rules)|]) && rules[|old(rules)|].errors == []
      ensures TargetOf(parentId, |old(rules)|) != Under(|old(rules)|) ==> Valid()
    {
      outcome := AddNewRule(UnsignedIntegerStringRule, value, path, parentId);
    }

    /** `build_not_empty_string`: register a `NotEmptyStringNode`. */
    method BuildNotEmptyString(value: Value, parentId: Option<int>, path: string) returns (outcome: Added)
      requires Valid()
      modifies this, rules`children, rules`Repr
      ensures |parents| == |rules|
      ensures (Entries(), outcome) == Register(old(Entries()), NotEmptyStringRule, value, path, parentId)
      ensures |rules| == |old(rules)| + 1 && rules[..|old(rules)|] == old(rules)
      ensures fresh(rules[|old(rules)|]) && rules[|old(rules)|].errors == []
      ensures TargetOf(parentId, |old(rules)|) != Under(|old(rules)|) ==> Valid()
    {
      outcome := AddNewRule(NotEmptyStringRule, value, path, parentId);
    }

    /** `build_dictionary`: register a `DictNode` with its key sets and strictness. */
    method BuildDictionary(value: Value, parentId: Option<int>, mandatoryKeys: set<string>, optionalKeys: set<string>, strictKeysSet: bool, path: string) returns (outcome: Added)
      requires Valid()
      modifies this, rules`children, rules`Repr
      ensures |parents| == |rules|
      ensures (Entries(), outcome) == Register(old(Entries()), DictRule(mandatoryKeys, optionalKeys, strictKeysSet), value, path, parentId)
      ensures |rules| == |old(rules)| + 1 && rules[..|old(rules)|] == old(rules)
      ensures fresh(rules[|old(rules)|]) && rules[|old(rules)|].errors == []
      ensures TargetOf(parentId, |old(rules)|) != Under(|old(rules)|) ==> Valid()
      ensures TargetOf(parentId, |old(rules)|) == Under(|old(rules)|) ==>
                rules[|old(rules)|] in rules[|old(rules)|].children
    {
      outcome := AddNewRule(DictRule(mandatoryKeys, optionalKeys, strictKeysSet), value, path, parentId);
    }

    /** `build_list`: register a `ListNode` with its length bounds. */
    method BuildList(value: Value, parentId: Option<int>, minLength: Option<int>, maxLength: Option<int>, path: string) returns (outcome: Added)
      requires Valid()
      modifies this, rules`children, rules`Repr
      ensures |parents| == |rules|
      ensures (Entries(), outcome) == Register(old(Entries()), ListRule(minLength, maxLength), value, path, parentId)
      ensures |rules| == |old(rules)| + 1 && rules[..|old(rules)|] == old(rules)
      ensures fresh(rules[|old(rules)|]) && rules[|old(rules)|].errors == []
      ensures TargetOf(parentId, |old(rules)|) != Under(|old(rules)|) ==> Valid()
      ensures TargetOf(parentId, |old(rules)|) == Under(|old(rules)|) ==>
                rules[|old(rules)|] in rules[|old(rules)|].children
    {
      outcome := AddNewRule(ListRule(minLength, maxLength), value, path, parentId);
    }

    /** `build_meta_rule`: register a `MetaNode`. */
    method BuildMetaRule(value: Value, parentId: Option<int>, path: string) returns (outcome: Added)
      requires Valid()
      modifies this, rules`children, rules`Repr
      ensures |parents| == |rules|
      ensures (Entries(), outcome) == Register(old(Entries()), MetaRule, value, path, parentId)
      ensures |rules| == |old(rules)| + 1 && rules[..|old(rules)|] == old(rules)
      ensures fresh(rules[|old(rules)|]) && rules[|old(rules)|].errors == []
      ensures TargetOf(parentId, |old(rules)|) != Under(|old(rules)|) ==> Valid()
      ensures TargetOf(parentId, |old(rules)|) == Under(|old(rules)|) ==>
                rules[|old(rules)|] in rules[|old(rules)|].children
    {
      outcome := AddNewRule(MetaRule, value, path, parentId);
    }
  }
}
