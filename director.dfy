/**
 * The director: the chain of recognizers it owns, and `build_rules_tree`, which
 * drains a first-in-first-out queue of messages through that chain, starting from
 * the whole rules scheme, until every fragment has been turned into a rule.
 */
module Director {
  import opened Values
  import opened Rules
  import opened Builder
  import opened Handlers

  // ---------------------------------------------------------------------------
  // How much work a scheme fragment makes

  function TasksOf(ms: seq<Message>): (ts: seq<Task>)
    ensures |ts| == |ms| && forall i :: 0 <= i < |ms| ==> ts[i] == TaskOf(ms[i])
  {
    seq(|ms|, i requires 0 <= i < |ms| => TaskOf(ms[i]))
  }

  /** The follow-up tasks a chain gives for `t` when it answers without raising. */
  function ChainTasks(kinds: seq<HandlerKind>, t: Task): seq<Task>
  {
    var c := Claimer(kinds, t.definition);
    if c.Some? then FollowUpTasks(c.value, t) else []
  }

  /** The number of messages a chain handles for `t`: one for `t` itself, then those of
      its follow-ups, which are strictly smaller fragments. */
  ghost function Work(kinds: seq<HandlerKind>, t: Task): nat
    decreases Size(t.definition), 1
  {
    var c := Claimer(kinds, t.definition);
    if c.None? then 1
    else
      FollowUpsSmaller(c.value, t);
      1 + TasksWork(kinds, FollowUpTasks(c.value, t), Size(t.definition))
  }

  ghost function TasksWork(kinds: seq<HandlerKind>, ts: seq<Task>, bound: nat): nat
    requires forall u | u in ts :: Size(u.definition) < bound
    decreases bound, 0, |ts|
  {
    if ts == [] then 0 else Work(kinds, ts[0]) + TasksWork(kinds, ts[1..], bound)
  }

  /** The messages still to be handled for a whole queue. */
  ghost function QueueWork(kinds: seq<HandlerKind>, ts: seq<Task>): nat
    decreases |ts|
  {
    if ts == [] then 0 else Work(kinds, ts[0]) + QueueWork(kinds, ts[1..])
  }

  lemma {:induction false} TasksWorkIsQueueWork(kinds: seq<HandlerKind>, ts: seq<Task>, bound: nat)
    requires forall u | u in ts :: Size(u.definition) < bound
    ensures TasksWork(kinds, ts, bound) == QueueWork(kinds, ts)
    decreases |ts|
  {
    if ts != [] {
      TasksWorkIsQueueWork(kinds, ts[1..], bound);
    }
  }

  lemma {:induction false} QueueWorkAppend(kinds: seq<HandlerKind>, a: seq<Task>, b: seq<Task>)
    ensures QueueWork(kinds, a + b) == QueueWork(kinds, a) + QueueWork(kinds, b)
    decreases |a|
  {
    if a != [] {
      assert (a + b)[0] == a[0] && (a + b)[1..] == a[1..] + b;
      QueueWorkAppend(kinds, a[1..], b);
    } else {
      assert a + b == b;
    }
  }

  /** A task's work is one plus that of the follow-ups the chain gives for it. */
  lemma WorkUnfold(kinds: seq<HandlerKind>, t: Task)
    ensures Work(kinds, t) == 1 + QueueWork(kinds, ChainTasks(kinds, t))
  {
    var c := Claimer(kinds, t.definition);
    if c.Some? {
      FollowUpsSmaller(c.value, t);
      TasksWorkIsQueueWork(kinds, FollowUpTasks(c.value, t), Size(t.definition));
    }
  }

  /** When the chain answers without raising, its follow-ups carry the chain's
      follow-up tasks for the message. */
  lemma RespondTasks(kinds: seq<HandlerKind>, entries: seq<Entry>, m: Message)
    requires Respond(kinds, entries, m).1.Handled?
    ensures TasksOf(Respond(kinds, entries, m).1.followUps) == ChainTasks(kinds, TaskOf(m))
  {
    RespondByClaimer(kinds, entries, m);
    var c := Claimer(kinds, m.definition);
    if c.Some? {
      var ms := Respond(kinds, entries, m).1.followUps;
      assert ms == FollowUps(c.value, m, |entries|);
    }
  }

  /** Handling the head of the queue and queueing its follow-ups leaves one message
      less to handle. */
  lemma DrainDecreases(kinds: seq<HandlerKind>, entries: seq<Entry>, queue: seq<Message>)
    requires queue != [] && Respond(kinds, entries, queue[0]).1.Handled?
    ensures QueueWork(kinds, TasksOf(queue[1..] + Respond(kinds, entries, queue[0]).1.followUps)) + 1
            == QueueWork(kinds, TasksOf(queue))
  {
    var fu := Respond(kinds, entries, queue[0]).1.followUps;
    RespondTasks(kinds, entries, queue[0]);
    assert TasksOf(queue[1..] + fu) == TasksOf(queue[1..]) + TasksOf(fu);
    QueueWorkAppend(kinds, TasksOf(queue[1..]), TasksOf(fu));
    assert TasksOf(queue)[1..] == TasksOf(queue[1..]);
    WorkUnfold(kinds, TaskOf(queue[0]));
  }

  // ---------------------------------------------------------------------------
  // Draining the queue

  datatype Drained = Drained(entries: seq<Entry>, bad: nat) | DrainFailed(fault: HandlerFault)

  /** The loop of `build_rules_tree`: handle the oldest message, count it as bad when
      no recognizer claims it, queue its follow-ups behind the rest; an exception
      from a handler ends the loop. */
  ghost function Drain(kinds: seq<HandlerKind>, entries: seq<Entry>, queue: seq<Message>, bad: nat): Drained
    decreases QueueWork(kinds, TasksOf(queue))
  {
    if queue == [] then Drained(entries, bad)
    else
      var (es, reply) := Respond(kinds, entries, queue[0]);
      match reply
      case Crashed(f) => DrainFailed(f)
      case Handled(id, followUps) =>
        DrainDecreases(kinds, entries, queue);
        Drain(kinds, es, queue[1..] + followUps, if id.None? then bad + 1 else bad)
  }

  /** The message the whole rules scheme starts as. */
  function RootMessage(schema: Value, value: Value): Message {
    Message(schema, None, value, "")
  }

  /** What `build_rules_tree` ends with, from an empty registry. */
  ghost function Outcome(kinds: seq<HandlerKind>, schema: Value, value: Value): Drained {
    Drain(kinds, [], [RootMessage(schema, value)], 0)
  }

  /** The shape of a registry and queue during the loop: every rule but the first hangs
      under a parent, every queued message names an issued composite rule as its
      parent, and a message without a parent is only the first one. */
  ghost predicate Pending(entries: seq<Entry>, queue: seq<Message>)
  {
    && (forall j | 0 < j < |entries| :: entries[j].parent.Some?)
    && (forall q | q in queue && q.parent.Some? ::
          0 <= q.parent.value < |entries| && entries[q.parent.value].kind.IsComposite())
    && (forall q | q in queue && q.parent.None? :: entries == [] && |queue| == 1)
  }

  /** One round of the loop, as `Drain` takes it: a raise ends it with the handler's
      fault, otherwise the rest of the loop runs on the new registry and queue, which
      keep `Pending` and hold one message less of work. */
  lemma DrainRound(kinds: seq<HandlerKind>, entries: seq<Entry>, queue: seq<Message>, bad: nat)
    requires queue != [] && Pending(entries, queue)
    ensures var (es, reply) := Respond(kinds, entries, queue[0]);
            (reply.Crashed? ==> Drain(kinds, entries, queue, bad) == DrainFailed(reply.fault)) &&
            (reply.Handled? ==>
               var next := queue[1..] + reply.followUps;
               var bad' := if reply.ruleId.None? then bad + 1 else bad;
               Pending(es, next) &&
               Drain(kinds, es, next, bad') == Drain(kinds, entries, queue, bad) &&
               QueueWork(kinds, TasksOf(next)) < QueueWork(kinds, TasksOf(queue))) &&
            TargetOf(queue[0].parent, |entries|) != Under(|entries|)
  {
    PendingStep(kinds, entries, queue);
    var (es, reply) := Respond(kinds, entries, queue[0]);
    if reply.Handled? {
      DrainDecreases(kinds, entries, queue);
    }
  }

  /** One round of the loop keeps `Pending` and never meets a refused attachment. */
  lemma PendingStep(kinds: seq<HandlerKind>, entries: seq<Entry>, queue: seq<Message>)
    requires queue != [] && Pending(entries, queue)
    ensures var (es, reply) := Respond(kinds, entries, queue[0]);
            !(reply.Crashed? && reply.fault.BuildFailed?) &&
            (reply.Handled? ==> Pending(es, queue[1..] + reply.followUps))
  {
    var m := queue[0];
    assert m in queue;
    RespondAttaches(kinds, entries, m);
    RespondEffect(kinds, entries, m);
    var (es, reply) := Respond(kinds, entries, m);
    if reply.Handled? {
      HandledPending(entries, es, queue, reply);
    }
  }

  /** A handled message leaves the rest of the queue and its follow-ups pending: the
      registry either stays put with no follow-ups or gains one rule hanging where
      the message said, under which the follow-ups hang. */
  lemma HandledPending(entries: seq<Entry>, es: seq<Entry>, queue: seq<Message>, reply: Reply)
    requires queue != [] && Pending(entries, queue) && reply.Handled?
    requires reply.ruleId.None? ==> reply.followUps == [] && es == entries
    requires reply.ruleId.Some? ==>
               |es| == |entries| + 1 && es[..|entries|] == entries && es[|entries|].parent == queue[0].parent &&
               (reply.followUps != [] ==> es[|entries|].kind.IsComposite()) &&
               (forall f | f in reply.followUps :: f.parent == Some(|entries|))
    ensures Pending(es, queue[1..] + reply.followUps)
  {
    assert queue[0] in queue;
    if reply.ruleId.Some? {
      forall j | 0 < j < |es| ensures es[j].parent.Some? {
        if j < |entries| {
          assert es[j] == entries[j];
        }
      }
    }
    PendingGrow(entries, es, queue, reply.followUps);
  }

  /** The rest of the queue stays pending on a registry that only grew, and so do
      follow-ups that hang under composite rules of the new registry. */
  lemma PendingGrow(entries: seq<Entry>, es: seq<Entry>, queue: seq<Message>, followUps: seq<Message>)
    requires queue != [] && Pending(entries, queue)
    requires |es| >= |entries| && es[..|entries|] == entries
    requires forall j | 0 < j < |es| :: es[j].parent.Some?
    requires forall f | f in followUps ::
               f.parent.Some? && 0 <= f.parent.value < |es| && es[f.parent.value].kind.IsComposite()
    ensures Pending(es, queue[1..] + followUps)
  {
    assert |queue| > 1 ==> forall q | q in queue :: q.parent.Some?;
    forall q | q in queue[1..] + followUps
      ensures q.parent.Some? && 0 <= q.parent.value < |es| && es[q.parent.value].kind.IsComposite()
    {
      if q in queue[1..] {
        assert q in queue;
        assert es[q.parent.value] == entries[q.parent.value];
      }
    }
  }

  /** The loop only ever raises for a dictionary fragment whose key lists are not
      mappings, and when it finishes every rule but the first hangs under a parent. */
  lemma {:induction false} DrainPending(kinds: seq<HandlerKind>, entries: seq<Entry>, queue: seq<Message>, bad: nat)
    requires Pending(entries, queue)
    ensures Drain(kinds, entries, queue, bad).DrainFailed? ==> Drain(kinds, entries, queue, bad).fault == NotAMapping
    ensures Drain(kinds, entries, queue, bad).Drained? ==>
              var es := Drain(kinds, entries, queue, bad).entries;
              forall j | 0 < j < |es| :: es[j].parent.Some?
    decreases QueueWork(kinds, TasksOf(queue))
  {
    if queue != [] {
      PendingStep(kinds, entries, queue);
      var (es, reply) := Respond(kinds, entries, queue[0]);
      if reply.Handled? {
        DrainDecreases(kinds, entries, queue);
        var next, bad' := queue[1..] + reply.followUps, if reply.ruleId.None? then bad + 1 else bad;
        assert Pending(es, next);
        assert Drain(kinds, entries, queue, bad) == Drain(kinds, es, next, bad');
        DrainPending(kinds, es, next, bad');
        assert Drain(kinds, es, next, bad').Drained? ==> forall j | 0 < j < |Drain(kinds, es, next, bad').entries| :: Drain(kinds, es, next, bad').entries[j].parent.Some?;
      } else {
        assert Drain(kinds, entries, queue, bad) == DrainFailed(reply.fault);
      }
    }
  }

  /** Every handled message either becomes exactly one rule or is counted as bad. */
  lemma {:induction false} DrainCounts(kinds: seq<HandlerKind>, entries: seq<Entry>, queue: seq<Message>, bad: nat)
    ensures Drain(kinds, entries, queue, bad).Drained? ==>
              var d := Drain(kinds, entries, queue, bad);
              |d.entries| >= |entries| && d.entries[..|entries|] == entries && d.bad >= bad &&
              |d.entries| + d.bad == |entries| + bad + QueueWork(kinds, TasksOf(queue))
    decreases QueueWork(kinds, TasksOf(queue))
  {
    if queue != [] {
      RespondEffect(kinds, entries, queue[0]);
      var (es, reply) := Respond(kinds, entries, queue[0]);
      if reply.Handled? {
        DrainDecreases(kinds, entries, queue);
        var next := queue[1..] + reply.followUps;
        DrainCounts(kinds, es, next, if reply.ruleId.None? then bad + 1 else bad);
        var d := Drain(kinds, es, next, if reply.ruleId.None? then bad + 1 else bad);
        if d.Drained? {
          assert d.entries[..|entries|] == d.entries[..|es|][..|entries|];
        }
      }
    }
  }

  /** `build_rules_tree` as a whole: it raises only for a dictionary fragment whose
      key lists are not mappings; otherwise it handles exactly `Work` messages, each
      one a rule or a bad definition, and a run without bad definitions leaves a
      non-empty registry in which every rule but the first hangs under a parent. */
  lemma OutcomeProperties(kinds: seq<HandlerKind>, schema: Value, value: Value)
    ensures Outcome(kinds, schema, value).DrainFailed? ==> Outcome(kinds, schema, value).fault == NotAMapping
    ensures Outcome(kinds, schema, value).Drained? ==>
              var d := Outcome(kinds, schema, value);
              |d.entries| + d.bad == Work(kinds, Task(schema, value, "")) &&
              (forall j | 0 < j < |d.entries| :: d.entries[j].parent.Some?) &&
              (d.bad == 0 ==> d.entries != [])
  {
    var root := RootMessage(schema, value);
    DrainPending(kinds, [], [root], 0);
    DrainCounts(kinds, [], [root], 0);
    WorkUnfold(kinds, TaskOf(root));
  }

  /** A valid registry whose entries are non-empty and attached beyond the first
      is rooted. */
  lemma AttachedIsRooted(b: RulesBuilder)
    requires b.Valid() && |b.parents| == |b.rules| && b.Entries() != []
    requires forall j | 0 < j < |b.Entries()| :: b.Entries()[j].parent.Some?
    ensures b.Rooted()
  {
    forall j | 0 < j < |b.rules| ensures b.parents[j].Some? {
      assert b.Entries()[j].parent == b.parents[j];
    }
  }

  // ---------------------------------------------------------------------------
  // `pop_handler`'s scan, as written and as intended

  /** Where the scan for the handler before the tail is, in a chain of handlers
      numbered from 0: still scanning at a position, or found the new tail. */
  datatype Scan = Scanning(cursor: nat) | Found(newTail: nat)

  /** One round of the loop as written: it tests whether the next handler is the tail
      but never moves the cursor. */
  function PopStepAsWritten(n: nat, s: Scan): Scan {
    match s
    case Found(_) => s
    case Scanning(k) => if k + 1 == n - 1 then Found(k) else Scanning(k)
  }

  /** One round of the loop as intended: the cursor moves to the next handler. */
  function PopStep(n: nat, s: Scan): Scan {
    match s
    case Found(_) => s
    case Scanning(k) => if k + 1 == n - 1 then Found(k) else Scanning(k + 1)
  }

  function PopAfterAsWritten(n: nat, rounds: nat): Scan {
    if rounds == 0 then Scanning(0) else PopStepAsWritten(n, PopAfterAsWritten(n, rounds - 1))
  }

  function PopAfter(n: nat, rounds: nat): Scan {
    if rounds == 0 then Scanning(0) else PopStep(n, PopAfter(n, rounds - 1))
  }

  /** As written, with three or more handlers the scan stays on the head for ever:
      `pop_handler` never returns. */
  lemma {:induction false} PopAsWrittenNeverFinds(n: nat, rounds: nat)
    requires n >= 3
    ensures PopAfterAsWritten(n, rounds) == Scanning(0)
  {
    if rounds > 0 {
      PopAsWrittenNeverFinds(n, rounds - 1);
    }
  }

  /** With two handlers the scan as written does find the head. */
  lemma PopAsWrittenTwo()
    ensures PopAfterAsWritten(2, 1) == Found(0)
  {
  }

  /** As intended, the scan reaches the handler before the tail after `n - 2` rounds. */
  lemma {:induction false} PopFinds(n: nat, rounds: nat)
    requires n >= 2 && rounds <= n - 2
    ensures PopAfter(n, rounds) == Scanning(rounds)
    ensures PopAfter(n, rounds + 1) == if rounds == n - 2 then Found(rounds) else Scanning(rounds + 1)
  {
    if rounds > 0 {
      PopFinds(n, rounds - 1);
    }
  }

  // ---------------------------------------------------------------------------
  // The director

  /** A registry grown by at most one rule stays within a set holding the old rules
      and the new one. */
  lemma GrownWithin(before: seq<Rule>, after: seq<Rule>, made: set<Rule>)
    requires forall i | 0 <= i < |before| :: before[i] in made
    requires |before| <= |after| <= |before| + 1 && after[..|before|] == before
    requires |after| > |before| ==> after[|before|] in made
    ensures forall i | 0 <= i < |after| :: after[i] in made
  {
    forall i | 0 <= i < |after| ensures after[i] in made {
      if i < |before| {
        assert after[i] == before[i];
      }
    }
  }

  /** Rules that joined the registry with no errors keep none while it grows. */
  lemma GrownClean(before: seq<Rule>, after: seq<Rule>)
    requires forall i | 0 <= i < |before| :: before[i].errors == []
    requires |before| <= |after| <= |before| + 1 && after[..|before|] == before
    requires |after| > |before| ==> after[|before|].errors == []
    ensures forall i | 0 <= i < |after| :: after[i].errors == []
  {
    forall i | 0 <= i < |after| ensures after[i].errors == [] {
      if i < |before| {
        assert after[i] == before[i];
      }
    }
  }

  datatype TreeResult =
    | Product(root: Rule)           // `get_product` of a run without bad definitions
    | BadDefinitions(count: nat)    // the `ValueError` naming how many were bad
    | HandlerRaised(fault: HandlerFault)  // an exception out of a handler
    | NoHandlers                    // the `AttributeError` of an empty chain

  /** `HandledDirector`, with the rules scheme and the builder of `BaseDirector`. */
  class Director {
    const schema: Value
    const builder: RulesBuilder
    var head: Handler?
    var tail: Handler?
    ghost var chain: seq<Handler>

    /** `head` and `tail` are the ends of the chain, linked in order, every handler
        sharing the director's builder. */
    ghost predicate Valid()
      reads this, chain
    {
      && Linked(chain)
      && (forall h | h in chain :: h.builder == builder)
      && (if chain == [] then head == null && tail == null
          else head == chain[0] && tail == chain[|chain| - 1])
    }

    constructor (schema: Value, builder: RulesBuilder)
      ensures this.schema == schema && this.builder == builder
      ensures Valid() && chain == []
    {
      this.schema := schema;
      this.builder := builder;
      head, tail := null, null;
      chain := [];
    }

    /** `BasicRulesDirector`: the four recognizers of the basic rules, appended in
        order, each on the director's builder. */
    constructor Basic(schema: Value, builder: RulesBuilder)
      ensures this.schema == schema && this.builder == builder
      ensures Valid() && KindsOf(chain) == [SimpleHandler, ListHandler, DictHandler, MetaHandler]
    {
      this.schema := schema;
      this.builder := builder;
      head, tail := null, null;
      chain := [];
      new;
      AppendBasicHandlers();
    }

    /** The body of `BasicRulesDirector`'s constructor: a simple, a list, a dictionary
        and a meta recognizer, appended in that order. */
    method AppendBasicHandlers()
      requires Valid() && chain == []
      modifies this
      ensures Valid() && KindsOf(chain) == [SimpleHandler, ListHandler, DictHandler, MetaHandler]
    {
      var simple := new Handler(SimpleHandler, builder);
      Append(simple);
      var list := new Handler(ListHandler, builder);
      Append(list);
      var dict := new Handler(DictHandler, builder);
      Append(dict);
      var meta := new Handler(MetaHandler, builder);
      Append(meta);
      assert chain == [simple, list, dict, meta];
    }

    /** `push_handler`: the handler becomes the head. */
    method Push(h: Handler)
      requires Valid() && (chain == [] ==> h.next == null) && h !in chain && h.builder == builder
      modifies this, h
      ensures Valid() && chain == [h] + old(chain)
    {
      if head == null {
        head, tail := h, h;
      } else {
        h.next := head;
        head := h;
      }
      chain := [h] + chain;
    }

    /** `append_handler`: the handler becomes the tail. */
    method Append(h: Handler)
      requires Valid() && h.next == null && h !in chain && h.builder == builder
      modifies this, tail
      ensures Valid() && chain == old(chain) + [h]
    {
      if tail == null {
        tail, head := h, h;
      } else {
        tail.next := h;
        tail := h;
      }
      chain := chain + [h];
    }

    /** `shift_handler`: unlink the head and return it, or none on an empty chain. The
        handler returned keeps its link into the chain. */
    method Shift() returns (h: Handler?)
      requires Valid()
      modifies this
      ensures Valid()
      ensures old(chain) == [] ==> h == null && chain == []
      ensures old(chain) != [] ==> h == old(chain)[0] && chain == old(chain)[1..]
    {
      if head == null {
        return null;
      } else if head == tail {
        LinkedHead(chain);
        h := head;
        head, tail := null, null;
        chain := [];
      } else {
        h := head;
        head := head.next;
        chain := chain[1..];
      }
    }

    /** `pop_handler`: unlink the tail and return it, or none on an empty chain. The
        scan for the handler before the tail moves along the chain; see the
        findings. */
    method Pop() returns (h: Handler?)
      requires Valid()
      modifies this, chain
      ensures Valid()
      ensures old(chain) == [] ==> h == null && chain == []
      ensures old(chain) != [] ==> h == old(chain)[|old(chain)| - 1] && chain == old(chain)[..|old(chain)| - 1]
      ensures forall g | g in old(chain) && g != h :: g.next == old(g.next) || g == chain[|chain| - 1]
    {
      if tail == null {
        return null;
      } else if head == tail {
        LinkedHead(chain);
        h := tail;
        head, tail := null, null;
        chain := [];
      } else {
        var handler := head;
        var k := 0;
        while handler.next != null
          invariant 0 <= k < |chain| - 1 && handler == chain[k] && handler.next == chain[k + 1]
          invariant Valid() && chain == old(chain) && head == old(head) && tail == old(tail)
          decreases |chain| - k
        {
          if handler.next == tail {
            forall i | 0 <= i < |chain| - 2
              ensures chain[i] != handler
            {
              assert chain[i].next == chain[i + 1] && chain[i + 1].next == chain[i + 2];
              assert chain[i + 1] != tail;
            }
            var newTail := handler;
            h := tail;
            tail := newTail;
            tail.next := null;
            chain := chain[..|chain| - 1];
            return;
          }
          handler := handler.next;
          k := k + 1;
          assert handler.next == chain[k + 1];
        }
        assert false;
      }
    }

    /** `build_rules_tree`: clean the builder, then handle the queue of messages from
        the root message on, first in first out, through the head of the chain; raise
        when some definitions were bad, otherwise return the builder's product. */
    method BuildRulesTree(value: Value) returns (result: TreeResult)
      requires Valid()
      modifies builder
      ensures |builder.parents| == |builder.rules|
      ensures chain == [] ==> result == NoHandlers && builder.rules == []
      ensures chain != [] ==>
                match Outcome(KindsOf(chain), schema, value)
                case DrainFailed(f) => result == HandlerRaised(f)
                case Drained(es, bad) =>
                  builder.Entries() == es &&
                  (bad > 0 ==> result == BadDefinitions(bad)) &&
                  (bad == 0 ==> result.Product? && builder.Rooted() && result.root == builder.rules[0])
      ensures result.Product? ==> fresh(result.root) && result.root.Valid() && result.root.Unvalidated()
    {
      builder.Clean();
      if head == null {
        result := NoHandlers;
      } else {
        var bad, fault := DrainQueue(RootMessage(schema, value), KindsOf(chain));
        result := Conclude(value, bad, fault);
      }
    }

    /** The end of `build_rules_tree`: a handler's exception, the count of bad
        definitions, or the registry's product. */
    method Conclude(value: Value, bad: nat, fault: Option<HandlerFault>) returns (result: TreeResult)
      requires Valid() && chain != [] && |builder.parents| == |builder.rules|
      requires match Outcome(KindsOf(chain), schema, value)
               case DrainFailed(f) => fault == Some(f)
               case Drained(es, b) => fault.None? && bad == b && builder.Entries() == es && builder.Valid()
      requires forall i | 0 <= i < |builder.rules| :: builder.rules[i].errors == []
      ensures match Outcome(KindsOf(chain), schema, value)
              case DrainFailed(f) => result == HandlerRaised(f)
              case Drained(es, b) =>
                (b > 0 ==> result == BadDefinitions(b)) &&
                (b == 0 ==> result.Product? && builder.Rooted() && result.root == builder.rules[0])
      ensures result.Product? ==> result.root == builder.rules[0] && result.root.Valid() && result.root.Unvalidated()
    {
      if fault.Some? {
        result := HandlerRaised(fault.value);
      } else if bad > 0 {
        result := BadDefinitions(bad);
      } else {
        OutcomeProperties(KindsOf(chain), schema, value);
        AttachedIsRooted(builder);
        builder.ProductHoldsAll();
        var product := builder.GetProduct();
        result := Product(product.value);
      }
    }

    /** The loop of `build_rules_tree`, from the root message on an empty registry:
        take the oldest message, hand it to the head of the chain, count it when no
        recognizer claims it, and queue its follow-ups. */
    method DrainQueue(root: Message, ghost kinds: seq<HandlerKind>) returns (bad: nat, fault: Option<HandlerFault>)
      requires Valid() && chain != [] && kinds == KindsOf(chain)
      requires builder.Valid() && |builder.parents| == |builder.rules| && builder.rules == [] && root.parent.None?
      modifies builder
      ensures |builder.parents| == |builder.rules|
      ensures match Drain(kinds, [], [root], 0)
              case DrainFailed(f) => fault == Some(f)
              case Drained(es, b) => fault.None? && bad == b && builder.Entries() == es && builder.Valid()
      ensures forall i | 0 <= i < |builder.rules| :: fresh(builder.rules[i]) && builder.rules[i].errors == []
    {
      var queue := [root];
      bad := 0;
      ghost var made: set<Rule> := {};
      while queue != []
        invariant builder.Valid() && |builder.parents| == |builder.rules|
        invariant fresh(made) && forall i | 0 <= i < |builder.rules| :: builder.rules[i] in made
        invariant forall i | 0 <= i < |builder.rules| :: builder.rules[i].errors == []
        invariant Pending(builder.Entries(), queue)
        invariant Drain(kinds, builder.Entries(), queue, bad) == Drain(kinds, [], [root], 0)
        decreases QueueWork(kinds, TasksOf(queue))
      {
        var reply;
        reply, made := HandleOldest(queue, kinds, bad, made);
        if reply.Crashed? {
          return bad, Some(reply.fault);
        }
        if reply.ruleId.None? {
          bad := bad + 1;
        }
        queue := queue[1..] + reply.followUps;
      }
      fault := None;
    }

    /** One round of the loop: hand the oldest message to the head of the chain. */
    method HandleOldest(queue: seq<Message>, ghost kinds: seq<HandlerKind>, ghost bad: nat, ghost made: set<Rule>)
      returns (reply: Reply, ghost made': set<Rule>)
      requires Valid() && chain != [] && kinds == KindsOf(chain) && queue != []
      requires builder.Valid() && |builder.parents| == |builder.rules| && Pending(builder.Entries(), queue)
      requires forall i | 0 <= i < |builder.rules| :: builder.rules[i] in made && builder.rules[i].errors == []
      modifies builder, builder.rules`children, builder.rules`Repr
      ensures |builder.parents| == |builder.rules|
      ensures made <= made' && fresh(made' - made) && forall i | 0 <= i < |builder.rules| :: builder.rules[i] in made'
      ensures forall i | 0 <= i < |builder.rules| :: builder.rules[i].errors == []
      ensures reply.Crashed? ==> Drain(kinds, old(builder.Entries()), queue, bad) == DrainFailed(reply.fault)
      ensures reply.Handled? ==>
                var next := queue[1..] + reply.followUps;
                var bad' := if reply.ruleId.None? then bad + 1 else bad;
                builder.Valid() && Pending(builder.Entries(), next) &&
                Drain(kinds, builder.Entries(), next, bad') == Drain(kinds, old(builder.Entries()), queue, bad) &&
                QueueWork(kinds, TasksOf(next)) < QueueWork(kinds, TasksOf(queue))
    {
      DrainRound(kinds, builder.Entries(), queue, bad);
      ghost var before := builder.rules;
      reply := head.HandleMessage(queue[0], chain);
      made' := if |builder.rules| > |before| then made + {builder.rules[|before|]} else made;
      GrownWithin(before, builder.rules, made');
      assert forall i | 0 <= i < |before| :: before[i].errors == old(before[i].errors);
      GrownClean(before, builder.rules);
    }
  }
}
