# config_validator, modelled in Dafny

`config_validator` checks a nested configuration value against a rules scheme. The scheme is itself a nested value, typically loaded from YAML.

A *director* turns the scheme into a tree of validation rules. It drains a first-in-first-out queue of messages through a *chain of responsibility* of scheme-fragment recognizers. Each recognizer claims a fragment or passes it on. A recognizer that claims a fragment asks a *builder* to register a new rule under the rule that produced the message. It then returns follow-up messages for the fragment's sub-fragments. The finished rule tree is a *Composite*: scalar rules check one value each, while list, dictionary and "meta" (alternatives) rules own a set of child rules. `validate()` records errors on every rule it visits and returns a verdict. `get_all_errors()` gathers them again.

The model has six modules, one file each:

| file | module | models |
|---|---|---|
| `values.dfy` | `Values` | Python values as a closed datatype: None, int, bool, str, list, dict (an association list of string keys in iteration order), and any other object. Also `dict.get`, `str(n)` for indices, `str.isdigit`, and a size measure. |
| `rules.dfy` | `Rules` | `basic_rules.py`: the class `Rule` with its kind, value, path, mutable error list and mutable child set. Validation methods loop over the child set. `add_child`, `remove_child` and `get_all_errors` are modelled too. |
| `builder.dfy` | `Builder` | `basic_builder.py`: the class `RulesBuilder`, with the registry as a sequence of `Rule` objects and a ghost parent relation. It covers `_add_new_rule` with Python's negative indices, `clean`, `get_product`, and the eight `build_*` methods. |
| `handlers.dfy` | `Handlers` | `basic_director_handlers.py`: the class `Handler` (kind, builder, `next` link). Each recognizer's claim is a method that calls the builder. The follow-up loops are methods proved against pure functions. |
| `director.dfy` | `Director` | `basic_director.py`: the class `Director`, with head and tail pointers over a ghost chain. It covers `push_handler`, `append_handler`, `shift_handler`, `pop_handler`, the constructor of `BasicRulesDirector`, and `build_rules_tree` with its queue loop. |
| `scenarios.dfy` | `Scenarios` | Whole runs of `build_rules_tree` through the basic chain, on a list scheme and on a list of alternatives, stated for all inputs of those shapes. |

Each state-changing method is tied to a pure specification:
- `Rule.Validate` ensures its verdict is `Accepts()`, a predicate stated without errors. It also ensures `Validated()`, which says exactly which errors every visited rule holds.
- Every `build_*` method ensures the registry as values equals `Register(old registry, …)`. It also keeps `Valid()`, which says the registry is a forest whose children and subtree footprints match the recorded parent relation.
- Every handler method ensures its reply and the new registry equal `Respond(kinds of the chain, old registry, message)`.
- `BuildRulesTree` ensures its result matches `Outcome`, the pure drain of the queue. `OutcomeProperties` and the lemmas beside it prove what that drain does:
  - it raises only for a dictionary fragment whose `mandatory` or `optional` is not a mapping;
  - every handled message becomes exactly one rule or one bad definition;
  - every rule but the first hangs under a composite parent;
  - the product's tree holds the whole registry.

Termination of the queue loop is proved with `Work`: the number of messages a fragment generates. It is finite because every follow-up fragment is a proper part of the fragment it came from.

## Model

| member | source | states |
|---|---|---|
| Values.KeysOf | config_validator/basic_rules.py:182 | the key set holds every key of the dictionary and nothing else |
| Values.Lookup | config_validator/basic_director_handlers.py:41 | `d[k]` for a present key is the value of an entry with that key |
| Values.GetOr | config_validator/basic_director_handlers.py:109 | `d.get(k, default)` is the default when the key is absent, otherwise the value of an entry with that key |
| Values.NatToString | config_validator/basic_director_handlers.py:79 | `str(n)` of an index is a non-empty string of decimal digits |
| Values.NatToStringRoundTrip | config_validator/basic_director_handlers.py:79 | `int(str(n)) == n` for every non-negative `n` |
| Values.NatToStringInjective | config_validator/basic_director_handlers.py:79 | different indices have different numerals |
| Rules.LeafErrors | config_validator/basic_rules.py:40-83 | a scalar rule records at most one error, at its own path; it records none exactly when its value is accepted (a machine `int` and not a bool; a bool; a string; a non-empty string; a non-empty all-digit string) |
| Rules.ListShapeErrors | config_validator/basic_rules.py:144-156 | a non-list gives exactly one error; for a list, no error exactly when the length is within the inclusive bounds (`None` = unbounded); a too-few error iff below the minimum, a too-many error iff above the maximum |
| Rules.DictShapeErrors | config_validator/basic_rules.py:178-195 | a non-dict gives exactly one error; for a dict, a missing-keys error iff some mandatory key is absent; an unknown-keys error iff the rule is strict and some key is neither mandatory nor optional; a non-strict rule never reports unknown keys; at most two errors |
| Rules.Rule.constructor | config_validator/basic_rules.py:15-20 | a new rule keeps its value and path and starts with no errors and no children |
| Rules.Rule.ShapeErrors | config_validator/basic_rules.py:139-200 | a list or dictionary rule's shape errors are empty exactly when the value has the right shape for it |
| Rules.Rule.OwnErrors | config_validator/basic_rules.py:99-224 | the errors one pass leaves on a rule are empty exactly when the rule accepts |
| Rules.Rule.Validate | config_validator/basic_rules.py:40-224 | on a tree not yet validated, the verdict is `Accepts()`, and it is true exactly when the rule's own errors are empty; every visited rule holds exactly its own errors; a scalar rule holds at most one error and any rule at most two |
| Rules.Rule.ValidateCollection | config_validator/basic_rules.py:139-200 | the shape check runs first; the children are validated only when it recorded nothing; the verdict is `Accepts()` |
| Rules.Rule.ValidateChildren | config_validator/basic_rules.py:99-109 | every child is validated; exactly one error is added iff some child rejects; with no children the rule is valid for any value |
| Rules.Rule.ValidateChild | config_validator/basic_rules.py:103-104 | validating one child leaves the verdicts and validation state of its siblings unchanged |
| Rules.Rule.ValidateAlternatives | config_validator/basic_rules.py:211-224 | every alternative is validated, without short-circuit; the verdict is the OR of theirs (so no alternatives means invalid); exactly one error is added iff none accepts |
| Rules.Rule.AddChild | config_validator/basic_rules.py:93-94 | set insertion on a composite rule; a scalar rule raises and is unchanged |
| Rules.Rule.RemoveChild | config_validator/basic_rules.py:96-97 | set removal on a composite rule, a no-op for an absent child; a scalar rule raises and is unchanged |
| Rules.Rule.CollectedFromPick | config_validator/basic_rules.py:115-118 | what the children gather does not depend on the order in which the child set is iterated |
| Rules.Rule.CollectedFromNothing | config_validator/basic_rules.py:115-118 | children that gather nothing contribute nothing |
| Rules.Rule.GatherFrom | config_validator/basic_rules.py:115-118 | the errors gathered child by child are, as a bag, everything the children collect |
| Rules.Rule.GetAllErrors | config_validator/basic_rules.py:111-122 | `None` instead of an empty list; otherwise a non-empty list that starts with the rule's own errors and holds, as a bag, everything the subtree collects; a set of alternatives without an error of its own gives `None` |
| Rules.Rule.CollectedAfterValidation | config_validator/basic_rules.py:226-240 | after one pass the subtree gathers no error exactly when it accepts, so an accepting set of alternatives stays silent even when some alternatives hold errors |
| Builder.TargetOf | config_validator/basic_builder.py:42 | where the rule numbered `n` is attached: nowhere for no id or an id beyond the registry; its own id or -1 attaches it to itself; an id below `-(n+1)` is an index error |
| Builder.Register | config_validator/basic_builder.py:40-46 | the rule is always appended, with earlier entries unchanged; its id is the old length; it is attached exactly when the target is in range and composite; `add_child` raises exactly when the target (the new rule itself when the id is its own) is a scalar rule; an id with no target returns the new id; an out-of-range negative id raises |
| Builder.RegisterUnder | config_validator/basic_builder.py:42-43 | with a target in range, the rule is attached when the rule there is composite, and otherwise `add_child` raises |
| Builder.ForestAppend | config_validator/basic_builder.py:40-46 | appending a fresh rule, detached or under an earlier composite rule, keeps the registry a forest whose children are exactly the rules registered under each id |
| Builder.RulesBuilder.constructor | config_validator/basic_builder.py:37-38 | a new builder has an empty registry |
| Builder.RulesBuilder.RuleIsTree | config_validator/basic_builder.py:40-46 | every rule of a valid registry is the root of a well-formed rule tree |
| Builder.RulesBuilder.Attach | config_validator/basic_builder.py:42-43 | `add_child` on the rule at the target index: raises iff that rule is scalar, otherwise records the parent and grows the children and subtrees above it |
| Builder.RulesBuilder.Append | config_validator/basic_builder.py:41 | the new rule joins the registry at the end, detached, and every other rule's children and subtree stay as they were |
| Builder.RulesBuilder.AddNewRule | config_validator/basic_builder.py:40-46 | the registry becomes `Register(old registry, …)` and the id is returned; earlier rules are unchanged; the new rule is fresh with no errors; the registry stays a forest unless the rule was attached to itself |
| Builder.RulesBuilder.Insert | config_validator/basic_builder.py:41-46 | the same for an already created rule object |
| Builder.RulesBuilder.Clean | config_validator/basic_builder.py:48-49 | the registry becomes empty |
| Builder.RulesBuilder.GetProduct | config_validator/basic_builder.py:51-56 | the first rule, which is a well-formed tree, or `None` exactly when the registry is empty |
| Builder.RulesBuilder.ProductHoldsAll | config_validator/basic_builder.py:51-56 | when every rule but the first is attached, the product's tree is the whole registry |
| Builder.RulesBuilder.BuildInteger | config_validator/basic_builder.py:78-80 | registers an integer rule as `Register` says |
| Builder.RulesBuilder.BuildBoolean | config_validator/basic_builder.py:82-84 | registers a boolean rule as `Register` says |
| Builder.RulesBuilder.BuildString | config_validator/basic_builder.py:86-88 | registers a string rule as `Register` says |
| Builder.RulesBuilder.BuildStringOfUnsignedIntegers | config_validator/basic_builder.py:90-92 | registers a digit-string rule as `Register` says |
| Builder.RulesBuilder.BuildNotEmptyString | config_validator/basic_builder.py:94-96 | registers a non-empty string rule as `Register` says |
| Builder.RulesBuilder.BuildDictionary | config_validator/basic_builder.py:98-106 | registers a dictionary rule carrying exactly the given mandatory keys, optional keys and strictness |
| Builder.RulesBuilder.BuildList | config_validator/basic_builder.py:108-113 | registers a list rule carrying exactly the given length bounds |
| Builder.RulesBuilder.BuildMetaRule | config_validator/basic_builder.py:115-117 | registers a set of alternatives as `Register` says |
| Handlers.ScalarKindOf | config_validator/basic_director_handlers.py:42-44 | the five type names select scalar rules only |
| Handlers.RulePath | config_validator/basic_director_handlers.py:48 | a rule's path is never empty: the empty root path becomes `/` and any other path is kept |
| Handlers.PlanOf | config_validator/basic_director_handlers.py:105-116 | only the simple recognizer builds scalar rules; the only recognizer that raises before building is the dictionary one, when `mandatory` or `optional` is not a mapping |
| Handlers.Attached | config_validator/basic_director_handlers.py:85-90 | each follow-up carries its task's fragment, value and path, and the id of the rule just built as its parent |
| Handlers.DictFragmentSmaller | config_validator/basic_director_handlers.py:132-140 | a dictionary follow-up's fragment is a proper part of the dictionary fragment |
| Handlers.DictTasksFromKeys | config_validator/basic_director_handlers.py:128-155 | at most one follow-up per key of the value, each on that key's value at `path/key` with the key's fragment |
| Handlers.DictTasksComplete | config_validator/basic_director_handlers.py:128-155 | every key whose fragment exists (mandatory, else optional, else `allowed` when not strict) gets its follow-up |
| Handlers.StrictDictTasksKnownKeys | config_validator/basic_director_handlers.py:138-143 | with strict keys, only mandatory or optional keys get follow-ups |
| Handlers.FollowUpsSmaller | config_validator/basic_director_handlers.py:81-90 | every follow-up fragment is smaller than the fragment it came from |
| Handlers.ListPathsDistinct | config_validator/basic_director_handlers.py:77-91 | list follow-ups have pairwise different paths |
| Handlers.MetaPathsDistinct | config_validator/basic_director_handlers.py:174-182 | alternative follow-ups have pairwise different paths |
| Handlers.Claimer | config_validator/basic_director_handlers.py:19-29 | the recognizer that answers is in the chain and does not decline; there is none exactly when every recognizer declines |
| Handlers.RespondByClaimer | config_validator/basic_director_handlers.py:19-29 | the chain answers as its first claiming recognizer does, or with `(None, [])` on an unchanged registry when all decline |
| Handlers.RespondEffect | config_validator/basic_director_handlers.py:64-93 | an answer naming no rule means no recognizer claimed, with no follow-ups and no change; one naming a rule appends exactly that rule for the message's value at its rule path, and every follow-up hangs under it, which is then composite |
| Handlers.RespondAttaches | config_validator/basic_builder.py:40-46 | a message whose parent id names an issued composite rule is never refused by the builder, and its rule hangs under that parent |
| Handlers.RespondNext | config_validator/basic_director_handlers.py:19-29 | the first recognizer answers, or the rest of the chain answers on the untouched registry |
| Handlers.ListFollowUps | config_validator/basic_director_handlers.py:72-93 | the counting loop gives one follow-up per element at `path/0`, `path/1`, … when the value is a list and `allowed` is present, and none otherwise |
| Handlers.DictFollowUps | config_validator/basic_director_handlers.py:126-155 | the loop over the value's keys gives exactly the follow-ups `DictTasksFromKeys` and `DictTasksComplete` describe, in key order |
| Handlers.MetaFollowUps | config_validator/basic_director_handlers.py:172-184 | one follow-up per alternative, in order, on the same value, at `path(alt.#1)`, `path(alt.#2)`, … |
| Handlers.Handler.constructor | config_validator/basic_director_handlers.py:15-17 | a new handler has the given builder and no next handler |
| Handlers.Handler.HandleMessage | config_validator/basic_director_handlers.py:19-29 | the reply and new registry are `Respond` of the chain from this handler on; the registry only grows, by at most one fresh rule that holds no errors |
| Handlers.Handler.PassOn | config_validator/basic_director_handlers.py:26-29 | passes to the next handler, or answers `(None, [])` at the end of the chain |
| Handlers.Handler.Claim | config_validator/basic_director_handlers.py:37-39 | this handler's own part of `handle_message`, as `RespondOwn` of its kind |
| Handlers.Handler.ClaimScalar | config_validator/basic_director_handlers.py:37-51 | a dict fragment whose type is one of the five scalar names gets its `build_*` rule and no follow-ups; anything else is declined with the registry unchanged |
| Handlers.Handler.ClaimList | config_validator/basic_director_handlers.py:59-95 | a `list` fragment gets a list rule with its `.get` bounds, then the list follow-ups under the new id |
| Handlers.Handler.ClaimDict | config_validator/basic_director_handlers.py:103-157 | a `dictionary` fragment raises when `mandatory` or `optional` is not a mapping, and otherwise builds its rule and follow-ups |
| Handlers.Handler.BuildDictRule | config_validator/basic_director_handlers.py:109-155 | the rule's key sets are the keys of `mandatory` and `optional`, its strictness is the truth of `strict_keys_set` (default true), and its follow-ups are those of `DictFollowUps` |
| Handlers.Handler.ClaimMeta | config_validator/basic_director_handlers.py:164-186 | a list fragment gets a set of alternatives and one follow-up per alternative |
| Director.QueueWorkAppend | config_validator/basic_director.py:122 | the work of a queue extended at the back is the sum of the two parts |
| Director.WorkUnfold | config_validator/basic_director.py:114-122 | a message's work is one plus the work of its follow-ups |
| Director.DrainDecreases | config_validator/basic_director.py:114-122 | handling the oldest message and queueing its follow-ups leaves exactly one message less to handle, so the loop terminates |
| Director.DrainRound | config_validator/basic_director.py:115-122 | one round of the loop: a raise ends the drain with that fault; otherwise the drain continues on the new registry and queue, which stay pending with less work |
| Director.PendingStep | config_validator/basic_director.py:116-122 | queued parent ids are always issued composite rules, so the builder's bound check never refuses an attachment |
| Director.DrainPending | config_validator/basic_director.py:114-122 | the loop raises only `NotAMapping`, and when it finishes every rule but the first hangs under a parent |
| Director.DrainCounts | config_validator/basic_director.py:114-127 | every handled message becomes exactly one rule or one bad definition; earlier entries are untouched |
| Director.OutcomeProperties | config_validator/basic_director.py:101-129 | from the root message, rules plus bad definitions equal the messages handled; a run without bad definitions leaves a non-empty registry attached beyond its first rule |
| Director.AttachedIsRooted | config_validator/basic_director.py:129 | a valid non-empty registry attached beyond its first rule is rooted at that rule |
| Director.PopAsWrittenNeverFinds | config_validator/basic_director.py:79-86 | the loop as written never moves its cursor, so with three or more handlers it never finds the new tail |
| Director.PopFinds | config_validator/basic_director.py:79-86 | with the cursor advancing, the scan reaches the handler before the tail after `n - 2` rounds |
| Director.Director.constructor | config_validator/basic_director.py:49-52 | a new director has an empty chain and the given scheme and builder |
| Director.Director.Basic | config_validator/basic_director.py:137-150 | the basic director's chain is simple, list, dictionary, meta, in that order, all on its builder |
| Director.Director.AppendBasicHandlers | config_validator/basic_director.py:140-150 | appending the four recognizers to an empty chain gives exactly that order |
| Director.Director.Push | config_validator/basic_director.py:54-60 | the handler becomes the head, in front of the old chain, its link overwritten when the chain is not empty; on an empty chain it is also the tail |
| Director.Director.Append | config_validator/basic_director.py:62-68 | the handler becomes the tail, behind the old chain; on an empty chain it is also the head |
| Director.Director.Shift | config_validator/basic_director.py:88-99 | returns the old head and drops it from the chain, or `None` on an empty chain; removing the only handler empties head and tail |
| Director.Director.Pop | config_validator/basic_director.py:70-86 | returns the old tail and drops it from the chain, or `None` on an empty chain; no handler's link changes except the new tail's |
| Director.Director.BuildRulesTree | config_validator/basic_director.py:101-129 | cleans the builder, then ends as the pure drain says: the handler's exception, the count of bad definitions, or the first rule of a rooted registry; that product is a fresh, well-formed tree in which no rule holds an error yet, so it can be validated |
| Director.Director.Conclude | config_validator/basic_director.py:124-129 | bad definitions raise with their count; otherwise the product is the root of a registry whose tree holds every rule, none of them holding an error |
| Director.Director.DrainQueue | config_validator/basic_director.py:111-122 | the loop leaves the registry and bad count of the pure drain of `[root]`, or stops at the first exception; every registered rule is new and holds no error |
| Director.Director.HandleOldest | config_validator/basic_director.py:115-122 | one round: the head of the chain handles the oldest message, and the registry and queue step as the pure drain does |
| Scenarios.ScalarResponse | config_validator/basic_director_handlers.py:46-49 | a scalar fragment under an issued composite rule becomes one leaf under that rule, with no follow-ups |
| Scenarios.ScalarQueue | config_validator/basic_director.py:114-122 | draining a queue of scalar fragments under one rule registers one leaf per message, in queue order, with no bad definition |
| Scenarios.RootThenScalars | config_validator/basic_director.py:111-122 | a composite root whose follow-ups are all scalar gives the root rule followed by one leaf per follow-up |
| Scenarios.ListOfScalars | config_validator/tests/test_basic_director.py:111-136 | a list scheme whose `allowed` is scalar, over any list, gives the list rule at `/` with the scheme's bounds, then one scalar rule per element at `/0`, `/1`, … on that element |
| Scenarios.ListShape | config_validator/basic_director_handlers.py:72-93 | a list scheme with `allowed` over a list value queues one message per element, under rule 0, with the `allowed` fragment |
| Scenarios.ListLeaves | config_validator/basic_director_handlers.py:77-91 | those messages' leaves sit at `/0`, `/1`, … on the elements |
| Scenarios.ScalarAlternatives | config_validator/tests/test_basic_director.py:64-89 | a list of scalar fragments over any value gives a set of alternatives at `/`, then one rule per alternative at `(alt.#1)`, `(alt.#2)`, … on the same value |
| Scenarios.MetaShape | config_validator/basic_director_handlers.py:172-184 | alternatives queue one message per alternative, under rule 0, with that alternative |
| Scenarios.MetaLeaves | config_validator/basic_director_handlers.py:172-184 | those messages' leaves sit at `(alt.#1)`, `(alt.#2)`, … on the same value |
| Scenarios.AlternativesAccept | config_validator/tests/test_basic_director.py:68-71 | of integer, digit string and boolean rules on `'777'`, only the digit-string rule accepts, and a set of alternatives holding these three rules accepts, so its validation returns true |

## Left out

- Rules.Rule.Validate: requires a tree on which no rule holds an error yet. Python's `validate()` called a second time appends its errors again; repeated passes are not modelled.
- Error messages are modelled by their reason and path, not their text. The order of the key lists inside the missing-keys and unknown-keys messages is therefore not modelled.
- The iteration order of child sets and dictionaries is unspecified in Python 2:
  - validation picks children in an arbitrary order (`:|`);
  - error collection is stated as a bag;
  - a dictionary is an association list whose order is taken as its iteration order.
- Rules.Rule.GetAllErrors: a ghost function, not an executable method. What it returns is stated exactly; only the recursion is not executable.
- Dictionary keys are strings, and each appears once. A non-string key would make the path concatenation raise `TypeError`, which is not modelled.
- Python runtime typing:
  - `basestring` versus `unicode` is not distinguished;
  - tuples, floats and other objects are one `VOther` value that carries only its truth value, so `0.0`, `()` and `frozenset()` are false;
  - `isdigit` is ASCII `0`–`9` only;
  - `type(v) == int` is modelled as a 64-bit machine integer that is not a bool.
- Handlers.BoundOf: a `min_length` or `max_length` that is neither an int nor a bool is treated as no bound. Python 2 would compare it with the length across types.
- The `getattr(self.builder, 'build_' + rule_type)` dispatch is an explicit case split over the five names.
- Builder.RulesBuilder.AddNewRule: promises the forest invariant only when the new rule is not attached to itself. With a parent id equal to the new id, or -1, Python makes the rule its own child; the model records that (`rule in rule.children`) but does not treat the resulting cycle as a tree. The director never passes such an id (`Director.PendingStep`).
- Director.Director.Push and Director.Director.Append require a handler that is not yet in the chain and shares the director's builder. Append also requires that the handler has no next link, and Push requires this only on an empty chain, where Python keeps the link it has. Python accepts any object.
- Director.Director.Shift leaves the returned handler's `next` link pointing into the chain, as Python does.
- Director.Director.Pop: models the scan as evidently intended, with the cursor advancing (see Findings). The scan as written is modelled in `Director.PopAsWrittenNeverFinds`.
- Director.Director.Basic: does not state that the four recognizers are distinct fresh objects. Its postcondition states only the order and kinds of the chain.
- The FIFO and LIFO behaviour of the handler deque is not stated as separate members. It follows from the `chain` postconditions of `Push`, `Append`, `Shift` and `Pop`.
- The end-to-end run on a non-strict dictionary scheme with `allowed` is not modelled as a scenario. Its per-key follow-ups are covered by `Handlers.DictTasksFromKeys`, `Handlers.DictTasksComplete` and `Handlers.Handler.DictFollowUps`.
- `BaseDirector`, `BaseBuilder`, the abstract `Node` methods that raise `NotImplementedError`, and the mixin plumbing are not modelled. Leaf versus composite is a variant of `RuleKind` instead.
- `example.py` (YAML loading and printing) and `logging_schema.py` (a constant scheme) are not part of this model.

## Findings

| source | as written | input that shows it | evidently intended | confidence | as-written member | corrected member |
|---|---|---|---|---|---|---|
| config_validator/basic_director.py:79-86 | the scan for the handler before the tail never advances `handler`, so with three or more handlers the `while` loop runs for ever and `pop_handler` never returns | a chain of three handlers `a → b → c`: `handler` stays `a`, `a.next_handler` is `b`, not the tail `c` | move `handler` to `handler.next_handler` at the end of each round, so the scan reaches the handler before the tail after `n - 2` rounds | not executed | Director.PopAsWrittenNeverFinds | Director.Director.Pop |
