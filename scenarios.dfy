/** Whole runs of `build_rules_tree` through the basic chain on concrete schemes,
    stated on the registry the run leaves behind. */
module Scenarios {
  import opened Values
  import opened Rules
  import opened Builder
  import opened Handlers
  import opened Director

  /** The chain `BasicRulesDirector` sets up. */
  const Basic: seq<HandlerKind> := [SimpleHandler, ListHandler, DictHandler, MetaHandler]

  /** The registry entries a queue of scalar messages under rule `p` adds. */
  function Leaves(queue: seq<Message>, kinds: seq<RuleKind>, p: nat): (es: seq<Entry>)
    requires |kinds| == |queue|
    ensures |es| == |queue|
  {
    seq(|queue|, i requires 0 <= i < |queue| => Entry(kinds[i], queue[i].value, RulePath(queue[i].path), Some(p)))
  }

  lemma LeavesCons(queue: seq<Message>, kinds: seq<RuleKind>, p: nat)
    requires |kinds| == |queue| && queue != []
    ensures Leaves(queue, kinds, p) == [Entry(kinds[0], queue[0].value, RulePath(queue[0].path), Some(p))] + Leaves(queue[1..], kinds[1..], p)
  {
    assert Leaves(queue, kinds, p)[1..] == Leaves(queue[1..], kinds[1..], p);
  }

  /** A scalar fragment under an issued composite rule: a chain led by the simple
      handler claims it, the rule hangs under the parent and there are no follow-ups. */
  lemma ScalarResponse(chain: seq<HandlerKind>, entries: seq<Entry>, m: Message, k: RuleKind, p: nat)
    requires chain != [] && chain[0] == SimpleHandler
    requires ScalarClaim(m.definition) == Some(k)
    requires m.parent == Some(p) && p < |entries| && entries[p].kind.IsComposite()
    ensures Respond(chain, entries, m) == (entries + [Entry(k, m.value, RulePath(m.path), Some(p))], Handled(Some(|entries|), []))
  {
    RespondNext(chain, entries, m);
    assert TargetOf(m.parent, |entries|) == Under(p);
    RegisterUnder(entries, k, m.value, RulePath(m.path), m.parent, p);
  }

  /** One round of the loop on a message the chain answers. */
  lemma DrainHandles(chain: seq<HandlerKind>, entries: seq<Entry>, queue: seq<Message>, bad: nat, es: seq<Entry>, id: Option<nat>, followUps: seq<Message>)
    requires queue != [] && Respond(chain, entries, queue[0]) == (es, Handled(id, followUps))
    ensures Drain(chain, entries, queue, bad) == Drain(chain, es, queue[1..] + followUps, if id.None? then bad + 1 else bad)
  {
  }

  /** The first round on a queue of scalar messages registers the first leaf and
      leaves the rest of the queue. */
  lemma ScalarStep(chain: seq<HandlerKind>, entries: seq<Entry>, queue: seq<Message>, kinds: seq<RuleKind>, p: nat, bad: nat)
    requires chain != [] && chain[0] == SimpleHandler
    requires |kinds| == |queue| && queue != [] && p < |entries| && entries[p].kind.IsComposite()
    requires ScalarClaim(queue[0].definition) == Some(kinds[0]) && queue[0].parent == Some(p)
    ensures var e := Entry(kinds[0], queue[0].value, RulePath(queue[0].path), Some(p));
            && Drain(chain, entries, queue, bad) == Drain(chain, entries + [e], queue[1..], bad)
            && entries + Leaves(queue, kinds, p) == (entries + [e]) + Leaves(queue[1..], kinds[1..], p)
  {
    var m := queue[0];
    var e := Entry(kinds[0], m.value, RulePath(m.path), Some(p));
    ScalarResponse(chain, entries, m, kinds[0], p);
    DrainHandles(chain, entries, queue, bad, entries + [e], Some(|entries|), []);
    assert queue[1..] + [] == queue[1..];
    LeavesCons(queue, kinds, p);
  }

  /** Draining a queue of scalar messages under one composite rule registers one
      leaf per message, in queue order, with no bad definition. */
  lemma {:induction false} ScalarQueue(chain: seq<HandlerKind>, entries: seq<Entry>, queue: seq<Message>, kinds: seq<RuleKind>, p: nat, bad: nat)
    requires chain != [] && chain[0] == SimpleHandler
    requires |kinds| == |queue| && p < |entries| && entries[p].kind.IsComposite()
    requires forall i | 0 <= i < |queue| :: ScalarClaim(queue[i].definition) == Some(kinds[i]) && queue[i].parent == Some(p)
    ensures Drain(chain, entries, queue, bad) == Drained(entries + Leaves(queue, kinds, p), bad)
    decreases |queue|
  {
    if queue != [] {
      ScalarStep(chain, entries, queue, kinds, p, bad);
      var e := Entry(kinds[0], queue[0].value, RulePath(queue[0].path), Some(p));
      ScalarQueue(chain, entries + [e], queue[1..], kinds[1..], p, bad);
    } else {
      assert entries + Leaves(queue, kinds, p) == entries;
    }
  }

  /** A root fragment some recognizer builds a composite rule for, with its follow-ups
      attached under rule 0. */
  lemma RootResponse(kind: HandlerKind, root: Message, rule: RuleKind)
    requires root.parent.None? && rule.IsComposite()
    requires Claimer(Basic, root.definition) == Some(kind) && PlanOf(kind, root.definition) == Build(rule)
    ensures Respond(Basic, [], root) ==
            ([Entry(rule, root.value, RulePath(root.path), None)], Handled(Some(0), FollowUps(kind, root, 0)))
  {
    RespondByClaimer(Basic, [], root);
  }

  /** The basic chain builds the composite rule `rule` for the root message, through
      the recognizer `kind`. */
  ghost predicate BuildsRoot(kind: HandlerKind, root: Message, rule: RuleKind) {
    && root.parent.None? && rule.IsComposite()
    && Claimer(Basic, root.definition) == Some(kind) && PlanOf(kind, root.definition) == Build(rule)
  }

  /** Every message of the queue is a scalar fragment of the matching kind under rule `p`. */
  ghost predicate ScalarsUnder(queue: seq<Message>, kinds: seq<RuleKind>, p: nat) {
    && |kinds| == |queue|
    && forall i | 0 <= i < |queue| :: ScalarClaim(queue[i].definition) == Some(kinds[i]) && queue[i].parent == Some(p)
  }

  /** `n` copies of `k`. */
  function Uniform(k: RuleKind, n: nat): (ks: seq<RuleKind>)
    ensures |ks| == n && forall i | 0 <= i < n :: ks[i] == k
  {
    seq(n, i => k)
  }

  /** A root fragment the chain builds a composite rule for, whose follow-ups are all
      scalar fragments: the run registers the root rule, then one leaf per follow-up
      under it, with no bad definition. */
  lemma RootThenScalars(kind: HandlerKind, root: Message, rule: RuleKind, kinds: seq<RuleKind>)
    requires BuildsRoot(kind, root, rule) && ScalarsUnder(FollowUps(kind, root, 0), kinds, 0)
    ensures Drain(Basic, [], [root], 0) ==
            Drained([Entry(rule, root.value, RulePath(root.path), None)] + Leaves(FollowUps(kind, root, 0), kinds, 0), 0)
  {
    RootResponse(kind, root, rule);
    var root0 := Entry(rule, root.value, RulePath(root.path), None);
    var msgs := FollowUps(kind, root, 0);
    DrainHandles(Basic, [], [root], 0, [root0], Some(0), msgs);
    assert [root][1..] + msgs == msgs;
    ScalarQueue(Basic, [root0], msgs, kinds, 0, 0);
  }

  // ---------------------------------------------------------------------------
  // A list of scalars

  /** A list scheme whose `allowed` fragment is a scalar type, over any list: the root
      is a list rule at `/` with the scheme's bounds, and each element gets a scalar
      rule under it, at `/0`, `/1`, … in order. */
  lemma ListOfScalars(d: seq<(string, Value)>, items: seq<Value>, k: RuleKind)
    requires HasType(VDict(d), "list") && ScalarClaim(Get(d, "allowed")) == Some(k)
    ensures Outcome(Basic, VDict(d), VList(items)) ==
            Drained([Entry(ListRule(BoundOf(Get(d, "min_length")), BoundOf(Get(d, "max_length"))), VList(items), "/", None)] +
                    seq(|items|, i requires 0 <= i < |items| => Entry(k, items[i], "/" + NatToString(i), Some(0))), 0)
  {
    assert Get(d, "allowed") != VNone;
    ListRun(d, items, k);
    ListLeaves(d, items, k);
  }

  /** The same run, with the leaves still stated through the follow-up messages. */
  lemma ListRun(d: seq<(string, Value)>, items: seq<Value>, k: RuleKind)
    requires HasType(VDict(d), "list") && ScalarClaim(Get(d, "allowed")) == Some(k)
    ensures var msgs := FollowUps(ListHandler, RootMessage(VDict(d), VList(items)), 0);
            Outcome(Basic, VDict(d), VList(items)) ==
            Drained([Entry(ListRule(BoundOf(Get(d, "min_length")), BoundOf(Get(d, "max_length"))), VList(items), "/", None)] +
                    Leaves(msgs, Uniform(k, |msgs|), 0), 0)
  {
    var root := RootMessage(VDict(d), VList(items));
    ListClaimed(d, items);
    ListShape(d, items, k);
    RootThenScalars(ListHandler, root, ListRule(BoundOf(Get(d, "min_length")), BoundOf(Get(d, "max_length"))),
                    Uniform(k, |FollowUps(ListHandler, root, 0)|));
  }

  /** The basic chain hands a list scheme to the list recognizer. */
  lemma ListClaimed(d: seq<(string, Value)>, items: seq<Value>)
    requires HasType(VDict(d), "list")
    ensures BuildsRoot(ListHandler, RootMessage(VDict(d), VList(items)),
                       ListRule(BoundOf(Get(d, "min_length")), BoundOf(Get(d, "max_length"))))
  {
    assert ScalarClaim(VDict(d)) == None;
  }

  /** A list scheme over a list value queues one message per element, under rule 0,
      each with the `allowed` fragment. */
  lemma ListShape(d: seq<(string, Value)>, items: seq<Value>, k: RuleKind)
    requires HasType(VDict(d), "list") && ScalarClaim(Get(d, "allowed")) == Some(k)
    ensures var msgs := FollowUps(ListHandler, RootMessage(VDict(d), VList(items)), 0);
            |msgs| == |items| && ScalarsUnder(msgs, Uniform(k, |msgs|), 0)
  {
    var root := RootMessage(VDict(d), VList(items));
    assert Get(d, "allowed") != VNone;
    assert FollowUpTasks(ListHandler, TaskOf(root)) == ListTasks(d, TaskOf(root));
  }

  /** Those messages' leaves sit at `/0`, `/1`, … on the elements. */
  lemma ListLeaves(d: seq<(string, Value)>, items: seq<Value>, k: RuleKind)
    requires HasType(VDict(d), "list") && Get(d, "allowed") != VNone
    ensures var msgs := FollowUps(ListHandler, RootMessage(VDict(d), VList(items)), 0);
            |msgs| == |items| &&
            Leaves(msgs, Uniform(k, |msgs|), 0) ==
            seq(|items|, i requires 0 <= i < |items| => Entry(k, items[i], "/" + NatToString(i), Some(0)))
  {
    var root := RootMessage(VDict(d), VList(items));
    var ts := ListTasks(d, TaskOf(root));
    assert FollowUpTasks(ListHandler, TaskOf(root)) == ts;
    var msgs := FollowUps(ListHandler, root, 0);
    forall i | 0 <= i < |msgs| ensures msgs[i].path == "/" + NatToString(i) {
      assert msgs[i].path == ts[i].path == "" + "/" + NatToString(i);
    }
  }

  // ---------------------------------------------------------------------------
  // Scalar alternatives

  /** A list of scalar fragments, as a scheme, over any value: the root is a set of
      alternatives at `/`, and each alternative gets its scalar rule on the same
      value, at `(alt.#1)`, `(alt.#2)`, … in order. */
  lemma ScalarAlternatives(alternatives: seq<Value>, kinds: seq<RuleKind>, v: Value)
    requires |kinds| == |alternatives|
    requires forall i | 0 <= i < |alternatives| :: ScalarClaim(alternatives[i]) == Some(kinds[i])
    ensures Outcome(Basic, VList(alternatives), v) ==
            Drained([Entry(MetaRule, v, "/", None)] +
                    seq(|alternatives|, i requires 0 <= i < |alternatives| =>
                      Entry(kinds[i], v, "(alt.#" + NatToString(i + 1) + ")", Some(0))), 0)
  {
    MetaRun(alternatives, kinds, v);
    MetaLeaves(alternatives, kinds, v);
  }

  /** The same run, with the leaves still stated through the follow-up messages. */
  lemma MetaRun(alternatives: seq<Value>, kinds: seq<RuleKind>, v: Value)
    requires |kinds| == |alternatives|
    requires forall i | 0 <= i < |alternatives| :: ScalarClaim(alternatives[i]) == Some(kinds[i])
    ensures Outcome(Basic, VList(alternatives), v) ==
            Drained([Entry(MetaRule, v, "/", None)] + Leaves(FollowUps(MetaHandler, RootMessage(VList(alternatives), v), 0), kinds, 0), 0)
  {
    MetaClaimed(alternatives, v);
    MetaShape(alternatives, kinds, v);
    RootThenScalars(MetaHandler, RootMessage(VList(alternatives), v), MetaRule, kinds);
  }

  /** The basic chain hands a list of fragments to the alternatives recognizer. */
  lemma MetaClaimed(alternatives: seq<Value>, v: Value)
    ensures BuildsRoot(MetaHandler, RootMessage(VList(alternatives), v), MetaRule)
  {
    assert Claimer(Basic[3..], VList(alternatives)) == Some(MetaHandler);
  }

  /** Alternatives over a value queue one message per alternative, under rule 0. */
  lemma MetaShape(alternatives: seq<Value>, kinds: seq<RuleKind>, v: Value)
    requires |kinds| == |alternatives|
    requires forall i | 0 <= i < |alternatives| :: ScalarClaim(alternatives[i]) == Some(kinds[i])
    ensures ScalarsUnder(FollowUps(MetaHandler, RootMessage(VList(alternatives), v), 0), kinds, 0)
  {
    var root := RootMessage(VList(alternatives), v);
    assert FollowUpTasks(MetaHandler, TaskOf(root)) == MetaTasks(alternatives, TaskOf(root));
  }

  /** Those messages' leaves sit at `(alt.#1)`, `(alt.#2)`, … on the same value. */
  lemma MetaLeaves(alternatives: seq<Value>, kinds: seq<RuleKind>, v: Value)
    requires |kinds| == |alternatives|
    ensures var msgs := FollowUps(MetaHandler, RootMessage(VList(alternatives), v), 0);
            |msgs| == |alternatives| &&
            Leaves(msgs, kinds, 0) ==
            seq(|alternatives|, i requires 0 <= i < |alternatives| =>
              Entry(kinds[i], v, "(alt.#" + NatToString(i + 1) + ")", Some(0)))
  {
    var root := RootMessage(VList(alternatives), v);
    var ts := MetaTasks(alternatives, TaskOf(root));
    assert FollowUpTasks(MetaHandler, TaskOf(root)) == ts;
    var msgs := FollowUps(MetaHandler, root, 0);
    forall i | 0 <= i < |msgs| ensures msgs[i].path == "(alt.#" + NatToString(i + 1) + ")" {
      assert msgs[i].path == ts[i].path == "" + "(alt.#" + NatToString(i + 1) + ")";
    }
  }

  /** Of the alternatives integer, digit string and boolean, only the digit-string
      rule accepts `'777'`, so a set of alternatives holding these three rules on
      `'777'` accepts it, and by `Rule.Validate` its validation pass returns true
      and records no error. */
  lemma AlternativesAccept(alternatives: Rule, integer: Rule, digits: Rule, boolean: Rule)
    requires alternatives.Valid() && alternatives.kind == MetaRule
    requires alternatives.children == {integer, digits, boolean}
    requires integer.kind == IntegerRule && digits.kind == UnsignedIntegerStringRule && boolean.kind == BooleanRule
    requires integer.value == VStr("777") && digits.value == VStr("777") && boolean.value == VStr("777")
    ensures !integer.Accepts() && digits.Accepts() && !boolean.Accepts()
    ensures alternatives.Accepts()
  {
    assert IsDigitChar("777"[0]) && IsDigitChar("777"[1]) && IsDigitChar("777"[2]);
    assert digits in alternatives.children && digits.Accepts();
  }
}
