/** The chain of schema-fragment recognizers.  Each handler looks at the schema
    fragment of a message; if it recognises it, it asks the builder for a rule and
    returns the new rule's id with the follow-up messages for the fragment's
    sub-fragments, otherwise it passes the message on to the next handler. */
module Handlers {
  import opened Values
  import opened Rules
  import opened Builder

  /** A work item: a schema fragment, the id of the rule to attach under, the part
      of the configuration it describes, and the path of that part. */
  datatype Message = Message(definition: Value, parent: Option<int>, value: Value, path: string)

  /** A message without its parent id: what a recognizer's follow-ups depend on. */
  datatype Task = Task(definition: Value, value: Value, path: string)

  function TaskOf(m: Message): Task {
    Task(m.definition, m.value, m.path)
  }

  /** `RuleParseHandler` and its four recognizers. */
  datatype HandlerKind = BaseHandler | SimpleHandler | ListHandler | DictHandler | MetaHandler

  /** Exceptions a handler lets through: the builder's, and the `AttributeError` of
      `iterkeys` when a dictionary fragment's `mandatory` or `optional` is not a dict. */
  datatype HandlerFault = BuildFailed(fault: Fault) | NotAMapping

  /** `(rule_id, new_messages)`, or an exception. */
  datatype Reply = Handled(ruleId: Option<nat>, followUps: seq<Message>) | Crashed(fault: HandlerFault)

  // ---------------------------------------------------------------------------
  // Reading schema fragments

  /** `isinstance(d, dict) and 'type' in d and d['type'] == name`. */
  predicate HasType(d: Value, name: string) {
    d.VDict? && "type" in KeysOf(d.entries) && Lookup(d.entries, "type") == VStr(name)
  }

  /** The scalar rule a `type` name selects, for the five names the simple handler knows. */
  function ScalarKindOf(t: Value): (k: Option<RuleKind>)
    ensures k.Some? ==> !k.value.IsComposite()
  {
    if t == VStr("integer") then Some(IntegerRule)
    else if t == VStr("string") then Some(StringRule)
    else if t == VStr("not_empty_string") then Some(NotEmptyStringRule)
    else if t == VStr("string_of_unsigned_integers") then Some(UnsignedIntegerStringRule)
    else if t == VStr("boolean") then Some(BooleanRule)
    else None
  }

  /** The scalar rule a fragment asks for, if it is a dict with a known scalar `type`. */
  function ScalarClaim(d: Value): Option<RuleKind> {
    if d.VDict? && "type" in KeysOf(d.entries) then ScalarKindOf(Lookup(d.entries, "type")) else None
  }

  /** A length bound read with `.get`: a number, or no bound when the key is absent
      or None. */
  function BoundOf(v: Value): Option<int> {
    match v
    case VInt(i) => Some(i)
    case VBool(b) => Some(if b then 1 else 0)
    case _ => None
  }

  /** The path a rule records: the message path, with the empty root path shown as `/`. */
  function RulePath(path: string): (p: string)
    ensures p != ""
    ensures path != "" ==> p == path
  {
    if path == "" then "/" else path
  }

  /** `d.get('mandatory', {})`, `d.get('optional', {})` and `d.get('strict_keys_set', True)`
      of a dictionary fragment, the last as its truth value. */
  function Mandatory(d: seq<(string, Value)>): Value {
    GetOr(d, "mandatory", VDict([]))
  }

  function Optional(d: seq<(string, Value)>): Value {
    GetOr(d, "optional", VDict([]))
  }

  function StrictKeys(d: seq<(string, Value)>): bool {
    Truthy(GetOr(d, "strict_keys_set", VBool(true)))
  }

  // ---------------------------------------------------------------------------
  // What each recognizer does with a fragment

  /** A recognizer declines a fragment, builds a rule for it, or raises first. */
  datatype Plan = Decline | Build(rule: RuleKind) | Fail(fault: HandlerFault)

  function PlanOf(kind: HandlerKind, d: Value): (plan: Plan)
    ensures plan.Build? && kind != SimpleHandler ==> plan.rule.IsComposite()
    ensures plan.Fail? ==> kind == DictHandler && plan.fault == NotAMapping
  {
    match kind
    case BaseHandler => Decline
    case SimpleHandler =>
      var k := ScalarClaim(d);
      if k.Some? then Build(k.value) else Decline
    case ListHandler =>
      if HasType(d, "list") then Build(ListRule(BoundOf(Get(d.entries, "min_length")), BoundOf(Get(d.entries, "max_length"))))
      else Decline
    case DictHandler =>
      if !HasType(d, "dictionary") then Decline
      else if !Mandatory(d.entries).VDict? || !Optional(d.entries).VDict? then Fail(NotAMapping)
      else Build(DictRule(KeysOf(Mandatory(d.entries).entries), KeysOf(Optional(d.entries).entries), StrictKeys(d.entries)))
    case MetaHandler =>
      if d.VList? then Build(MetaRule) else Decline
  }

  /** The fragment a dictionary rule's follow-up for `key` uses: the mandatory one,
      else the optional one, else `allowed` when keys are not strict, else none. */
  function DictFragment(d: seq<(string, Value)>, key: string): Value
    requires Mandatory(d).VDict? && Optional(d).VDict?
  {
    var mandatory, optional := Mandatory(d).entries, Optional(d).entries;
    if key in KeysOf(mandatory) then Lookup(mandatory, key)
    else if key in KeysOf(optional) then Lookup(optional, key)
    else if !StrictKeys(d) then Get(d, "allowed")
    else VNone
  }

  /** The list recognizer's follow-ups: one per element, numbered from 0, when the
      value is a list and the fragment has an `allowed` fragment. */
  function ListTasks(d: seq<(string, Value)>, t: Task): (ts: seq<Task>)
  {
    if t.value.VList? && Get(d, "allowed") != VNone then
      seq(|t.value.items|, i requires 0 <= i < |t.value.items| =>
        Task(Get(d, "allowed"), t.value.items[i], t.path + "/" + NatToString(i)))
    else []
  }

  /** The dictionary recognizer's follow-ups for the first entries of the value, in
      their iteration order: one per key that has a fragment. */
  function DictTasks(d: seq<(string, Value)>, entries: seq<(string, Value)>, path: string): (ts: seq<Task>)
    requires Mandatory(d).VDict? && Optional(d).VDict?
  {
    if entries == [] then []
    else
      var key := entries[|entries| - 1].0;
      DictTasks(d, entries[..|entries| - 1], path) +
      (if DictFragment(d, key) != VNone then [Task(DictFragment(d, key), entries[|entries| - 1].1, path + "/" + key)] else [])
  }

  /** The meta recognizer's follow-ups: one per alternative, numbered from 1, all on
      the same value. */
  function MetaTasks(alternatives: seq<Value>, t: Task): (ts: seq<Task>)
  {
    seq(|alternatives|, i requires 0 <= i < |alternatives| =>
      Task(alternatives[i], t.value, t.path + "(alt.#" + NatToString(i + 1) + ")"))
  }

  /** The follow-ups of a recognizer that built a rule for `t`. */
  function FollowUpTasks(kind: HandlerKind, t: Task): seq<Task>
  {
    match PlanOf(kind, t.definition)
    case Build(_) =>
      (match kind
       case ListHandler => ListTasks(t.definition.entries, t)
       case DictHandler => if t.value.VDict? then DictTasks(t.definition.entries, t.value.entries, t.path) else []
       case MetaHandler => MetaTasks(t.definition.items, t)
       case _ => [])
    case _ => []
  }

  /** Tasks turned into messages for the rule with id `id`. */
  function Attached(ts: seq<Task>, id: nat): (ms: seq<Message>)
    ensures |ms| == |ts|
    ensures forall i :: 0 <= i < |ts| ==> TaskOf(ms[i]) == ts[i] && ms[i].parent == Some(id)
  {
    seq(|ts|, i requires 0 <= i < |ts| => Message(ts[i].definition, Some(id), ts[i].value, ts[i].path))
  }

  lemma AttachedConcat(a: seq<Task>, b: seq<Task>, id: nat)
    ensures Attached(a + b, id) == Attached(a, id) + Attached(b, id)
  {
  }

  lemma AttachedSnoc(ts: seq<Task>, k: nat, id: nat)
    requires k < |ts|
    ensures Attached(ts[..k + 1], id) == Attached(ts[..k], id) + [Message(ts[k].definition, Some(id), ts[k].value, ts[k].path)]
  {
    assert ts[..k + 1] == ts[..k] + [ts[k]];
    AttachedConcat(ts[..k], [ts[k]], id);
  }

  lemma DictFollowUpSnoc(d: seq<(string, Value)>, entries: seq<(string, Value)>, k: nat, path: string, id: nat)
    requires Mandatory(d).VDict? && Optional(d).VDict? && k < |entries|
    ensures Attached(DictTasks(d, entries[..k + 1], path), id) == Attached(DictTasks(d, entries[..k], path), id) +
      (if DictFragment(d, entries[k].0) != VNone
       then [Message(DictFragment(d, entries[k].0), Some(id), entries[k].1, path + "/" + entries[k].0)] else [])
  {
    assert entries[..k + 1][..k] == entries[..k];
    var last := if DictFragment(d, entries[k].0) != VNone then [Task(DictFragment(d, entries[k].0), entries[k].1, path + "/" + entries[k].0)] else [];
    assert DictTasks(d, entries[..k + 1], path) == DictTasks(d, entries[..k], path) + last;
    AttachedConcat(DictTasks(d, entries[..k], path), last, id);
  }

  /** The follow-up messages, all attached under the rule just built. */
  function FollowUps(kind: HandlerKind, m: Message, id: nat): seq<Message>
  {
    Attached(FollowUpTasks(kind, TaskOf(m)), id)
  }

  /** `handle_message` of one recognizer on the registry as values: None when it
      declines, otherwise its reply and the registry afterwards. */
  function RespondOwn(kind: HandlerKind, entries: seq<Entry>, m: Message): (seq<Entry>, Option<Reply>)
  {
    match PlanOf(kind, m.definition)
    case Decline => (entries, None)
    case Fail(f) => (entries, Some(Crashed(f)))
    case Build(rule) =>
      var (es, added) := Register(entries, rule, m.value, RulePath(m.path), m.parent);
      (es, Some(if added.Added? then Handled(Some(added.id), FollowUps(kind, m, added.id)) else Crashed(BuildFailed(added.fault))))
  }

  /** `handle_message` of a chain of recognizers: the first that does not decline
      answers; when all decline, `(None, [])`. */
  function Respond(kinds: seq<HandlerKind>, entries: seq<Entry>, m: Message): (seq<Entry>, Reply)
    decreases |kinds|
  {
    if kinds == [] then (entries, Handled(None, []))
    else
      var (es, own) := RespondOwn(kinds[0], entries, m);
      if own.Some? then (es, own.value) else Respond(kinds[1..], entries, m)
  }

  // ---------------------------------------------------------------------------
  // Properties of the recognizers

  /** A fragment found in a dictionary fragment, directly or one level down, is
      smaller than it. */
  lemma DictFragmentSmaller(d: seq<(string, Value)>, key: string)
    requires Mandatory(d).VDict? && Optional(d).VDict?
    requires DictFragment(d, key) != VNone
    ensures Size(DictFragment(d, key)) < Size(VDict(d))
  {
    var mandatory, optional := Mandatory(d).entries, Optional(d).entries;
    if key in KeysOf(mandatory) {
      var i :| 0 <= i < |mandatory| && mandatory[i] == (key, Lookup(mandatory, key));
      EntrySmaller(mandatory, i);
      GetOrSmaller(d, "mandatory", VDict([]));
    } else if key in KeysOf(optional) {
      var i :| 0 <= i < |optional| && optional[i] == (key, Lookup(optional, key));
      EntrySmaller(optional, i);
      GetOrSmaller(d, "optional", VDict([]));
    } else {
      GetOrSmaller(d, "allowed", VNone);
    }
  }

  /** The dictionary recognizer's follow-ups: at most one per key of the value, each
      for a key whose fragment exists, on that key's value and at that key's path. */
  lemma {:induction false} DictTasksFromKeys(d: seq<(string, Value)>, entries: seq<(string, Value)>, path: string)
    requires Mandatory(d).VDict? && Optional(d).VDict?
    ensures |DictTasks(d, entries, path)| <= |entries|
    ensures forall u | u in DictTasks(d, entries, path) ::
              (exists i :: 0 <= i < |entries| && DictFragment(d, entries[i].0) != VNone &&
                 u == Task(DictFragment(d, entries[i].0), entries[i].1, path + "/" + entries[i].0))
  {
    if entries != [] {
      var prefix := entries[..|entries| - 1];
      DictTasksFromKeys(d, prefix, path);
      forall u | u in DictTasks(d, entries, path)
        ensures exists i :: 0 <= i < |entries| && DictFragment(d, entries[i].0) != VNone &&
                  u == Task(DictFragment(d, entries[i].0), entries[i].1, path + "/" + entries[i].0)
      {
        if u in DictTasks(d, prefix, path) {
          var i :| 0 <= i < |prefix| && DictFragment(d, prefix[i].0) != VNone &&
                   u == Task(DictFragment(d, prefix[i].0), prefix[i].1, path + "/" + prefix[i].0);
          assert prefix[i] == entries[i];
        } else {
          assert u == Task(DictFragment(d, entries[|entries| - 1].0), entries[|entries| - 1].1, path + "/" + entries[|entries| - 1].0);
        }
      }
    }
  }

  /** Every key of the value whose fragment exists gets its follow-up. */
  lemma {:induction false} DictTasksComplete(d: seq<(string, Value)>, entries: seq<(string, Value)>, path: string, i: nat)
    requires Mandatory(d).VDict? && Optional(d).VDict?
    requires i < |entries| && DictFragment(d, entries[i].0) != VNone
    ensures Task(DictFragment(d, entries[i].0), entries[i].1, path + "/" + entries[i].0) in DictTasks(d, entries, path)
  {
    if i < |entries| - 1 {
      var prefix := entries[..|entries| - 1];
      assert prefix[i] == entries[i];
      DictTasksComplete(d, prefix, path, i);
    }
  }

  /** With `strict_keys_set`, only keys the rule knows, mandatory or optional, get a
      follow-up. */
  lemma StrictDictTasksKnownKeys(d: seq<(string, Value)>, entries: seq<(string, Value)>, path: string)
    requires Mandatory(d).VDict? && Optional(d).VDict? && StrictKeys(d)
    ensures forall u | u in DictTasks(d, entries, path) ::
              exists key :: key in KeysOf(Mandatory(d).entries) + KeysOf(Optional(d).entries) && u.path == path + "/" + key
  {
    DictTasksFromKeys(d, entries, path);
    forall u | u in DictTasks(d, entries, path)
      ensures exists key :: key in KeysOf(Mandatory(d).entries) + KeysOf(Optional(d).entries) && u.path == path + "/" + key
    {
      var i :| 0 <= i < |entries| && DictFragment(d, entries[i].0) != VNone &&
               u == Task(DictFragment(d, entries[i].0), entries[i].1, path + "/" + entries[i].0);
      assert entries[i].0 in KeysOf(Mandatory(d).entries) + KeysOf(Optional(d).entries);
    }
  }

  /** Every follow-up fragment is a proper part of the fragment it came from, the
      measure that makes the director's work list finite. */
  lemma FollowUpsSmaller(kind: HandlerKind, t: Task)
    ensures forall u | u in FollowUpTasks(kind, t) :: Size(u.definition) < Size(t.definition)
  {
    var ts := FollowUpTasks(kind, t);
    if PlanOf(kind, t.definition).Build? {
      match kind
      case ListHandler =>
        if ts != [] {
          GetOrSmaller(t.definition.entries, "allowed", VNone);
        }
      case DictHandler =>
        if t.value.VDict? {
          var d := t.definition.entries;
          DictTasksFromKeys(d, t.value.entries, t.path);
          forall u | u in ts ensures Size(u.definition) < Size(t.definition) {
            var i :| 0 <= i < |t.value.entries| && DictFragment(d, t.value.entries[i].0) != VNone &&
                     u == Task(DictFragment(d, t.value.entries[i].0), t.value.entries[i].1, t.path + "/" + t.value.entries[i].0);
            DictFragmentSmaller(d, t.value.entries[i].0);
          }
        }
      case MetaHandler =>
        forall u | u in ts ensures Size(u.definition) < Size(t.definition) {
          var i :| 0 <= i < |ts| && ts[i] == u;
          ItemSmaller(t.definition.items, i);
        }
      case _ =>
    }
  }

  /** A path extended by two different suffixes is two different paths. */
  lemma ExtendedPathsDiffer(path: string, s1: string, s2: string)
    requires s1 != s2
    ensures path + s1 != path + s2
  {
    assert (path + s1)[|path|..] == s1;
    assert (path + s2)[|path|..] == s2;
  }

  /** The list recognizer's follow-ups have pairwise different paths. */
  lemma ListPathsDistinct(d: seq<(string, Value)>, t: Task, i: nat, j: nat)
    requires i < |ListTasks(d, t)| && j < |ListTasks(d, t)| && i != j
    ensures ListTasks(d, t)[i].path != ListTasks(d, t)[j].path
  {
    if NatToString(i) == NatToString(j) {
      NatToStringInjective(i, j);
    }
    ExtendedPathsDiffer(t.path + "/", NatToString(i), NatToString(j));
    assert t.path + "/" + NatToString(i) == (t.path + "/") + NatToString(i);
  }

  /** The meta recognizer's follow-ups have pairwise different paths. */
  lemma MetaPathsDistinct(alternatives: seq<Value>, t: Task, i: nat, j: nat)
    requires i < |alternatives| && j < |alternatives| && i != j
    ensures MetaTasks(alternatives, t)[i].path != MetaTasks(alternatives, t)[j].path
  {
    var a, b := NatToString(i + 1) + ")", NatToString(j + 1) + ")";
    if a == b {
      assert a[..|a| - 1] == NatToString(i + 1);
      assert b[..|b| - 1] == NatToString(j + 1);
      NatToStringInjective(i + 1, j + 1);
    }
    ExtendedPathsDiffer(t.path + "(alt.#", a, b);
    assert t.path + "(alt.#" + NatToString(i + 1) + ")" == (t.path + "(alt.#") + a;
    assert t.path + "(alt.#" + NatToString(j + 1) + ")" == (t.path + "(alt.#") + b;
  }

  // ---------------------------------------------------------------------------
  // Properties of a chain

  /** The first recognizer of the chain that does not decline the fragment. */
  function Claimer(kinds: seq<HandlerKind>, d: Value): (c: Option<HandlerKind>)
    ensures c.Some? ==> c.value in kinds && PlanOf(c.value, d) != Decline
    ensures c.None? <==> forall k | k in kinds :: PlanOf(k, d) == Decline
    decreases |kinds|
  {
    if kinds == [] then None
    else if PlanOf(kinds[0], d) != Decline then Some(kinds[0])
    else
      var c := Claimer(kinds[1..], d);
      assert forall k | k in kinds[1..] :: k in kinds;
      assert c.None? ==> forall k | k in kinds :: k == kinds[0] || k in kinds[1..];
      c
  }

  /** The chain answers as its first claiming recognizer does, or with `(None, [])`,
      leaving the registry as it was, when every recognizer declines. */
  lemma {:induction false} RespondByClaimer(kinds: seq<HandlerKind>, entries: seq<Entry>, m: Message)
    ensures Claimer(kinds, m.definition).None? ==> Respond(kinds, entries, m) == (entries, Handled(None, []))
    ensures Claimer(kinds, m.definition).Some? ==>
              var (es, own) := RespondOwn(Claimer(kinds, m.definition).value, entries, m);
              own.Some? && Respond(kinds, entries, m) == (es, own.value)
    decreases |kinds|
  {
    if kinds != [] && PlanOf(kinds[0], m.definition) == Decline {
      RespondByClaimer(kinds[1..], entries, m);
    }
  }

  /** What a chain does to the registry: nothing when no recognizer claims or the
      claimer raises before building, otherwise one entry for the message's value at
      its rule path, appended as the builder registers it; and a reply naming that
      entry, whose follow-ups all hang under it, which is then a composite rule. */
  lemma RespondEffect(kinds: seq<HandlerKind>, entries: seq<Entry>, m: Message)
    ensures var (es, reply) := Respond(kinds, entries, m);
            (reply.Handled? && reply.ruleId.None? <==> Claimer(kinds, m.definition).None?) &&
            (reply.Handled? && reply.ruleId.None? ==> reply.followUps == [] && es == entries) &&
            (reply.Handled? && reply.ruleId.Some? ==>
               reply.ruleId.value == |entries| && |es| == |entries| + 1 && es[..|entries|] == entries &&
               es[|entries|].value == m.value && es[|entries|].path == RulePath(m.path) &&
               (reply.followUps != [] ==> es[|entries|].kind.IsComposite()) &&
               (forall f | f in reply.followUps :: f.parent == Some(|entries|))) &&
            (reply.Crashed? && reply.fault == NotAMapping ==> es == entries)
  {
    RespondByClaimer(kinds, entries, m);
    var c := Claimer(kinds, m.definition);
    if c.Some? && PlanOf(c.value, m.definition).Build? {
      var (es, reply) := Respond(kinds, entries, m);
      if reply.Handled? && reply.followUps != [] {
        assert c.value != SimpleHandler;
      }
    }
  }

  /** A message whose parent id names an issued composite rule, or no rule at all, is
      never refused by the builder, and its rule is attached under that parent. */
  lemma RespondAttaches(kinds: seq<HandlerKind>, entries: seq<Entry>, m: Message)
    requires m.parent.Some? ==> 0 <= m.parent.value < |entries| && entries[m.parent.value].kind.IsComposite()
    ensures var (es, reply) := Respond(kinds, entries, m);
            !(reply.Crashed? && reply.fault.BuildFailed?) &&
            (reply.Handled? && reply.ruleId.Some? ==> |es| == |entries| + 1 && es[|entries|].parent == m.parent)
  {
    RespondByClaimer(kinds, entries, m);
  }

  // ---------------------------------------------------------------------------
  // Building the follow-up lists

  /** The loop of the list recognizer: one follow-up per element while the fragment
      has an `allowed` fragment, numbered by a counter of follow-ups. */
  method ListFollowUps(m: Message, id: nat) returns (followUps: seq<Message>)
    requires HasType(m.definition, "list")
    ensures followUps == FollowUps(ListHandler, m, id)
  {
    followUps := [];
    if m.value.VList? {
      var items := m.value.items;
      var allowed := Get(m.definition.entries, "allowed");
      ghost var ts := ListTasks(m.definition.entries, TaskOf(m));
      var innerIndex := 0;
      var k := 0;
      while k < |items|
        invariant 0 <= k <= |items| && innerIndex == |followUps|
        invariant allowed != VNone ==> |ts| == |items| && followUps == Attached(ts[..k], id)
        invariant allowed == VNone ==> followUps == []
      {
        var newPath := m.path + "/" + NatToString(innerIndex);
        var inner := Get(m.definition.entries, "allowed");
        if inner != VNone {
          AttachedSnoc(ts, k, id);
          followUps := followUps + [Message(inner, Some(id), items[k], newPath)];
          innerIndex := innerIndex + 1;
        }
        k := k + 1;
      }
      assert allowed != VNone ==> ts[..k] == ts;
    }
  }

  /** The loop of the dictionary recognizer over the keys of the value. */
  method DictFollowUps(m: Message, id: nat) returns (followUps: seq<Message>)
    requires HasType(m.definition, "dictionary")
    requires Mandatory(m.definition.entries).VDict? && Optional(m.definition.entries).VDict?
    ensures followUps == FollowUps(DictHandler, m, id)
  {
    followUps := [];
    var d := m.definition.entries;
    var mandatory, optional := Mandatory(d).entries, Optional(d).entries;
    var strictKeys := StrictKeys(d);
    if m.value.VDict? {
      var entries := m.value.entries;
      var k := 0;
      while k < |entries|
        invariant 0 <= k <= |entries|
        invariant followUps == Attached(DictTasks(d, entries[..k], m.path), id)
      {
        var key := entries[k].0;
        var inner: Value;
        if key in KeysOf(mandatory) {
          inner := Lookup(mandatory, key);
        } else if key in KeysOf(optional) {
          inner := Lookup(optional, key);
        } else if !strictKeys {
          inner := Get(d, "allowed");
        } else {
          inner := VNone;
        }
        assert inner == DictFragment(d, key);
        DictFollowUpSnoc(d, entries, k, m.path, id);
        if inner != VNone {
          followUps := followUps + [Message(inner, Some(id), entries[k].1, m.path + "/" + key)];
        }
        k := k + 1;
      }
      assert entries[..k] == entries;
    }
  }

  /** The loop of the meta recognizer: one follow-up per alternative, numbered from 1. */
  method MetaFollowUps(m: Message, id: nat) returns (followUps: seq<Message>)
    requires m.definition.VList?
    ensures followUps == FollowUps(MetaHandler, m, id)
  {
    followUps := [];
    var alternatives := m.definition.items;
    var index := 1;
    var k := 0;
    while k < |alternatives|
      invariant 0 <= k <= |alternatives| && index == k + 1
      invariant followUps == Attached(MetaTasks(alternatives, TaskOf(m))[..k], id)
    {
      AttachedSnoc(MetaTasks(alternatives, TaskOf(m)), k, id);
      followUps := followUps + [Message(alternatives[k], Some(id), m.value, m.path + "(alt.#" + NatToString(index) + ")")];
      index := index + 1;
      k := k + 1;
    }
    assert MetaTasks(alternatives, TaskOf(m))[..k] == MetaTasks(alternatives, TaskOf(m));
  }

  // ---------------------------------------------------------------------------
  // The handlers

  /** The handlers of a chain, each linked to the next, the last to none. */
  ghost predicate Linked(chain: seq<Handler>)
    reads chain
  {
    && (forall i :: 0 <= i < |chain| - 1 ==> chain[i].next == chain[i + 1])
    && (chain != [] ==> chain[|chain| - 1].next == null)
  }

  function KindsOf(chain: seq<Handler>): (kinds: seq<HandlerKind>)
    ensures |kinds| == |chain| && forall i :: 0 <= i < |chain| ==> kinds[i] == chain[i].kind
  {
    seq(|chain|, i requires 0 <= i < |chain| => chain[i].kind)
  }

  /** One step of `Respond`: the first recognizer answers, or the rest of the chain does
      on the untouched registry. */
  lemma RespondNext(kinds: seq<HandlerKind>, entries: seq<Entry>, m: Message)
    requires kinds != []
    ensures RespondOwn(kinds[0], entries, m).1.Some? ==>
      Respond(kinds, entries, m) == (RespondOwn(kinds[0], entries, m).0, RespondOwn(kinds[0], entries, m).1.value)
    ensures RespondOwn(kinds[0], entries, m).1.None? ==>
      RespondOwn(kinds[0], entries, m).0 == entries && Respond(kinds, entries, m) == Respond(kinds[1..], entries, m)
  {
  }

  lemma LinkedHead(chain: seq<Handler>)
    requires chain != [] && Linked(chain)
    ensures chain[0].next == if |chain| > 1 then chain[1] else null
  {
  }

  lemma LinkedTail(chain: seq<Handler>)
    requires |chain| > 1 && Linked(chain)
    ensures Linked(chain[1..]) && chain[1] in chain && KindsOf(chain)[1..] == KindsOf(chain[1..])
  {
    forall i | 0 <= i < |chain| - 2
      ensures chain[1..][i].next == chain[1..][i + 1]
    {
      assert chain[i + 1].next == chain[i + 2];
    }
  }

  class Handler {
    const kind: HandlerKind
    const builder: RulesBuilder
    var next: Handler?

    constructor (kind: HandlerKind, builder: RulesBuilder)
      ensures this.kind == kind && this.builder == builder && next == null
    {
      this.kind := kind;
      this.builder := builder;
      next := null;
    }

    /** `handle_message`: answer the message if this handler's recognizer claims it,
        otherwise pass it down the chain. */
    method HandleMessage(m: Message, ghost chain: seq<Handler>) returns (reply: Reply)
      requires chain != [] && chain[0] == this && Linked(chain)
      requires forall h | h in chain :: h.builder == builder
      requires builder.Valid()
      modifies builder, builder.rules`children, builder.rules`Repr
      ensures |builder.parents| == |builder.rules|
      ensures |builder.rules| >= |old(builder.rules)| && builder.rules[..|old(builder.rules)|] == old(builder.rules)
      ensures |builder.rules| <= |old(builder.rules)| + 1
      ensures |builder.rules| == |old(builder.rules)| + 1 ==>
                fresh(builder.rules[|old(builder.rules)|]) && builder.rules[|old(builder.rules)|].errors == []
      ensures (builder.Entries(), reply) == Respond(KindsOf(chain), old(builder.Entries()), m)
      ensures TargetOf(m.parent, |old(builder.rules)|) != Under(|old(builder.rules)|) ==> builder.Valid()
      decreases |chain|, 1
    {
      RespondNext(KindsOf(chain), builder.Entries(), m);
      var own := Claim(m);
      if own.Some? {
        reply := own.value;
      } else {
        reply := PassOn(m, chain);
      }
    }

    /** The base class's `handle_message`: hand the message to the next handler, or
        answer `(None, [])` at the end of the chain. */
    method PassOn(m: Message, ghost chain: seq<Handler>) returns (reply: Reply)
      requires chain != [] && chain[0] == this && Linked(chain)
      requires forall h | h in chain :: h.builder == builder
      requires builder.Valid()
      modifies builder, builder.rules`children, builder.rules`Repr
      ensures |builder.parents| == |builder.rules|
      ensures |builder.rules| >= |old(builder.rules)| && builder.rules[..|old(builder.rules)|] == old(builder.rules)
      ensures |builder.rules| <= |old(builder.rules)| + 1
      ensures |builder.rules| == |old(builder.rules)| + 1 ==>
                fresh(builder.rules[|old(builder.rules)|]) && builder.rules[|old(builder.rules)|].errors == []
      ensures (builder.Entries(), reply) == Respond(KindsOf(chain)[1..], old(builder.Entries()), m)
      ensures TargetOf(m.parent, |old(builder.rules)|) != Under(|old(builder.rules)|) ==> builder.Valid()
      decreases |chain|, 0
    {
      LinkedHead(chain);
      if next != null {
        LinkedTail(chain);
        reply := next.HandleMessage(m, chain[1..]);
      } else {
        reply := Handled(None, []);
      }
    }

    /** The part of `handle_message` that belongs to this handler's class. */
    method Claim(m: Message) returns (own: Option<Reply>)
      requires builder.Valid()
      modifies builder, builder.rules`children, builder.rules`Repr
      ensures |builder.parents| == |builder.rules|
      ensures |builder.rules| >= |old(builder.rules)| && builder.rules[..|old(builder.rules)|] == old(builder.rules)
      ensures |builder.rules| <= |old(builder.rules)| + 1
      ensures |builder.rules| == |old(builder.rules)| + 1 ==>
                fresh(builder.rules[|old(builder.rules)|]) && builder.rules[|old(builder.rules)|].errors == []
      ensures own.None? ==> builder.rules == old(builder.rules)
      ensures (builder.Entries(), own) == RespondOwn(kind, old(builder.Entries()), m)
      ensures own.None? || TargetOf(m.parent, |old(builder.rules)|) != Under(|old(builder.rules)|) ==> builder.Valid()
    {
      match kind
      case BaseHandler => own := None;
      case SimpleHandler => own := ClaimScalar(m);
      case ListHandler => own := ClaimList(m);
      case DictHandler => own := ClaimDict(m);
      case MetaHandler => own := ClaimMeta(m);
    }

    /** `SimpleRuleParseHandler.handle_message`: the `build_<type>` method named by the
        fragment's type, with no follow-ups. */
    method ClaimScalar(m: Message) returns (own: Option<Reply>)
      requires builder.Valid()
      modifies builder, builder.rules`children, builder.rules`Repr
      ensures |builder.parents| == |builder.rules|
      ensures |builder.rules| >= |old(builder.rules)| && builder.rules[..|old(builder.rules)|] == old(builder.rules)
      ensures |builder.rules| <= |old(builder.rules)| + 1
      ensures |builder.rules| == |old(builder.rules)| + 1 ==>
                fresh(builder.rules[|old(builder.rules)|]) && builder.rules[|old(builder.rules)|].errors == []
      ensures own.None? ==> builder.rules == old(builder.rules)
      ensures (builder.Entries(), own) == RespondOwn(SimpleHandler, old(builder.Entries()), m)
      ensures own.None? || TargetOf(m.parent, |old(builder.rules)|) != Under(|old(builder.rules)|) ==> builder.Valid()
    {
      own := None;
      var d := m.definition;
      if d.VDict? && "type" in KeysOf(d.entries) {
        var ruleType := Lookup(d.entries, "type");
        var path := RulePath(m.path);
        var added: Added;
        if ruleType == VStr("integer") {
          added := builder.BuildInteger(m.value, m.parent, path);
        } else if ruleType == VStr("string") {
          added := builder.BuildString(m.value, m.parent, path);
        } else if ruleType == VStr("not_empty_string") {
          added := builder.BuildNotEmptyString(m.value, m.parent, path);
        } else if ruleType == VStr("string_of_unsigned_integers") {
          added := builder.BuildStringOfUnsignedIntegers(m.value, m.parent, path);
        } else if ruleType == VStr("boolean") {
          added := builder.BuildBoolean(m.value, m.parent, path);
        } else {
          return;
        }
        own := Some(if added.Added? then Handled(Some(added.id), []) else Crashed(BuildFailed(added.fault)));
      }
    }

    /** `ListRuleParseHandler.handle_message`. */
    method ClaimList(m: Message) returns (own: Option<Reply>)
      requires builder.Valid()
      modifies builder, builder.rules`children, builder.rules`Repr
      ensures |builder.parents| == |builder.rules|
      ensures |builder.rules| >= |old(builder.rules)| && builder.rules[..|old(builder.rules)|] == old(builder.rules)
      ensures |builder.rules| <= |old(builder.rules)| + 1
      ensures |builder.rules| == |old(builder.rules)| + 1 ==>
                fresh(builder.rules[|old(builder.rules)|]) && builder.rules[|old(builder.rules)|].errors == []
      ensures own.None? ==> builder.rules == old(builder.rules)
      ensures (builder.Entries(), own) == RespondOwn(ListHandler, old(builder.Entries()), m)
      ensures own.None? || TargetOf(m.parent, |old(builder.rules)|) != Under(|old(builder.rules)|) ==> builder.Valid()
    {
      own := None;
      if HasType(m.definition, "list") {
        var d := m.definition.entries;
        var added := builder.BuildList(m.value, m.parent, BoundOf(Get(d, "min_length")), BoundOf(Get(d, "max_length")), RulePath(m.path));
        if added.Raised? {
          return Some(Crashed(BuildFailed(added.fault)));
        }
        var followUps := ListFollowUps(m, added.id);
        own := Some(Handled(Some(added.id), followUps));
      }
    }

    /** `DictRuleParseHandler.handle_message`. */
    method ClaimDict(m: Message) returns (own: Option<Reply>)
      requires builder.Valid()
      modifies builder, builder.rules`children, builder.rules`Repr
      ensures |builder.parents| == |builder.rules|
      ensures |builder.rules| >= |old(builder.rules)| && builder.rules[..|old(builder.rules)|] == old(builder.rules)
      ensures |builder.rules| <= |old(builder.rules)| + 1
      ensures |builder.rules| == |old(builder.rules)| + 1 ==>
                fresh(builder.rules[|old(builder.rules)|]) && builder.rules[|old(builder.rules)|].errors == []
      ensures own.None? ==> builder.rules == old(builder.rules)
      ensures (builder.Entries(), own) == RespondOwn(DictHandler, old(builder.Entries()), m)
      ensures own.None? || TargetOf(m.parent, |old(builder.rules)|) != Under(|old(builder.rules)|) ==> builder.Valid()
    {
      own := None;
      if HasType(m.definition, "dictionary") {
        var d := m.definition.entries;
        var mandatory := GetOr(d, "mandatory", VDict([]));
        if !mandatory.VDict? {
          return Some(Crashed(NotAMapping));
        }
        var optional := GetOr(d, "optional", VDict([]));
        if !optional.VDict? {
          return Some(Crashed(NotAMapping));
        }
        var reply := BuildDictRule(m);
        own := Some(reply);
      }
    }

    /** The second half of `DictRuleParseHandler.handle_message`: once both key
        fragments are mappings, build the rule and its follow-ups. */
    method BuildDictRule(m: Message) returns (reply: Reply)
      requires builder.Valid()
      requires HasType(m.definition, "dictionary")
      requires Mandatory(m.definition.entries).VDict? && Optional(m.definition.entries).VDict?
      modifies builder, builder.rules`children, builder.rules`Repr
      ensures |builder.parents| == |builder.rules|
      ensures |builder.rules| >= |old(builder.rules)| && builder.rules[..|old(builder.rules)|] == old(builder.rules)
      ensures |builder.rules| <= |old(builder.rules)| + 1
      ensures |builder.rules| == |old(builder.rules)| + 1 ==>
                fresh(builder.rules[|old(builder.rules)|]) && builder.rules[|old(builder.rules)|].errors == []
      ensures (builder.Entries(), Some(reply)) == RespondOwn(DictHandler, old(builder.Entries()), m)
      ensures TargetOf(m.parent, |old(builder.rules)|) != Under(|old(builder.rules)|) ==> builder.Valid()
    {
      var d := m.definition.entries;
      var mandatory, optional := GetOr(d, "mandatory", VDict([])), GetOr(d, "optional", VDict([]));
      var strictKeys := GetOr(d, "strict_keys_set", VBool(true));
      var added := builder.BuildDictionary(m.value, m.parent, KeysOf(mandatory.entries), KeysOf(optional.entries),
                                           Truthy(strictKeys), RulePath(m.path));
      if added.Raised? {
        return Crashed(BuildFailed(added.fault));
      }
      var followUps := DictFollowUps(m, added.id);
      reply := Handled(Some(added.id), followUps);
    }

    /** `MetaRuleParseHandler.handle_message`. */
    method ClaimMeta(m: Message) returns (own: Option<Reply>)
      requires builder.Valid()
      modifies builder, builder.rules`children, builder.rules`Repr
      ensures |builder.parents| == |builder.rules|
      ensures |builder.rules| >= |old(builder.rules)| && builder.rules[..|old(builder.rules)|] == old(builder.rules)
      ensures |builder.rules| <= |old(builder.rules)| + 1
      ensures |builder.rules| == |old(builder.rules)| + 1 ==>
                fresh(builder.rules[|old(builder.rules)|]) && builder.rules[|old(builder.rules)|].errors == []
      ensures own.None? ==> builder.rules == old(builder.rules)
      ensures (builder.Entries(), own) == RespondOwn(MetaHandler, old(builder.Entries()), m)
      ensures own.None? || TargetOf(m.parent, |old(builder.rules)|) != Under(|old(builder.rules)|) ==> builder.Valid()
    {
      own := None;
      if m.definition.VList? {
        var added := builder.BuildMetaRule(m.value, m.parent, RulePath(m.path));
        if added.Raised? {
          return Some(Crashed(BuildFailed(added.fault)));
        }
        var followUps := MetaFollowUps(m, added.id);
        own := Some(Handled(Some(added.id), followUps));
      }
    }
  }
}
