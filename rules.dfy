/** The rule tree: scalar rules that check one value each and composite rules
    (a plain composite, a list, a dictionary and a set of alternatives) that own
    a set of child rules.  A validation pass appends error records to each
    rule it visits and returns a verdict; error collection gathers them again. */
module Rules {
  import opened Values

  /** Why a rule rejected its value (the message text is not modelled). */
  datatype Reason =
    | NotInteger
    | NotBoolean
    | NotString
    | EmptyString
    | NotUnsignedIntegerString
    | NotList
    | TooFewItems(min: int)
    | TooManyItems(max: int)
    | NotDictionary
    | MissingKeys(missing: set<string>)
    | UnknownKeys(unknown: set<string>)
    | NestedInvalid
    | NoValidAlternative

  /** One entry of a rule's error list: where, and why. */
  datatype Error = Error(path: string, reason: Reason)

  /** The class of a rule together with the parameters its builder sets. */
  datatype RuleKind =
    | IntegerRule
    | BooleanRule
    | StringRule
    | NotEmptyStringRule
    | UnsignedIntegerStringRule
    | CompositeRule
    | ListRule(minLength: Option<int>, maxLength: Option<int>)
    | DictRule(mandatoryKeys: set<string>, optionalKeys: set<string>, strictKeysSet: bool)
    | MetaRule
  {
    predicate IsComposite() {
      CompositeRule? || ListRule? || DictRule? || MetaRule?
    }
  }

  // ---------------------------------------------------------------------------
  // What each rule accepts, stated directly

  predicate LeafAccepts(kind: RuleKind, v: Value)
    requires !kind.IsComposite()
  {
    match kind
    case IntegerRule => IsPyInt(v)
    case BooleanRule => v.VBool?
    case StringRule => v.VStr?
    case NotEmptyStringRule => v.VStr? && v.s != ""
    case UnsignedIntegerStringRule => v.VStr? && IsDigitString(v.s)
  }

  /** Inclusive length bounds, `None` meaning unbounded. */
  predicate WithinBounds(minLength: Option<int>, maxLength: Option<int>, n: int) {
    (minLength.None? || minLength.value <= n) && (maxLength.None? || n <= maxLength.value)
  }

  /** Every mandatory key is present and, when the key set is strict, every key is known. */
  predicate KeysAccepted(mandatory: set<string>, optional: set<string>, strict: bool, keys: set<string>) {
    mandatory <= keys && (strict ==> keys <= mandatory + optional)
  }

  // ---------------------------------------------------------------------------
  // The checks as the rule classes perform them

  function StringErrors(v: Value, path: string): seq<Error> {
    if v.VStr? then [] else [Error(path, NotString)]
  }

  /** The non-empty check runs only when the inherited string check recorded nothing. */
  function NotEmptyStringErrors(v: Value, path: string): seq<Error> {
    var es := StringErrors(v, path);
    if es == [] && |v.s| == 0 then es + [Error(path, EmptyString)] else es
  }

  /** The digit check runs only when the inherited non-empty string checks recorded nothing. */
  function UnsignedIntegerStringErrors(v: Value, path: string): seq<Error> {
    var es := NotEmptyStringErrors(v, path);
    if es == [] && !IsDigitString(v.s) then es + [Error(path, NotUnsignedIntegerString)] else es
  }

  /** The errors a scalar rule records: at most one, and none exactly when it accepts. */
  function LeafErrors(kind: RuleKind, v: Value, path: string): (es: seq<Error>)
    requires !kind.IsComposite()
    ensures |es| <= 1
    ensures es == [] <==> LeafAccepts(kind, v)
    ensures forall e :: e in es ==> e.path == path
  {
    match kind
    case IntegerRule => if IsPyInt(v) then [] else [Error(path, NotInteger)]
    case BooleanRule => if v.VBool? then [] else [Error(path, NotBoolean)]
    case StringRule => StringErrors(v, path)
    case NotEmptyStringRule => NotEmptyStringErrors(v, path)
    case UnsignedIntegerStringRule => UnsignedIntegerStringErrors(v, path)
  }

  /** The shape errors of a list rule: one for a value that is not a list, otherwise
      one per violated bound. */
  function ListShapeErrors(minLength: Option<int>, maxLength: Option<int>, v: Value, path: string): (es: seq<Error>)
    ensures !v.VList? ==> es == [Error(path, NotList)]
    ensures v.VList? ==> (es == [] <==> WithinBounds(minLength, maxLength, |v.items|))
    ensures (exists e :: e in es && e.reason.TooFewItems?) <==>
              v.VList? && minLength.Some? && |v.items| < minLength.value
    ensures (exists e :: e in es && e.reason.TooManyItems?) <==>
              v.VList? && maxLength.Some? && |v.items| > maxLength.value
    ensures |es| <= 2
  {
    if !v.VList? then [Error(path, NotList)]
    else
      var tooFew := if minLength.Some? && |v.items| < minLength.value
                    then [Error(path, TooFewItems(minLength.value))] else [];
      var tooMany := if maxLength.Some? && |v.items| > maxLength.value
                     then [Error(path, TooManyItems(maxLength.value))] else [];
      assert forall e :: e in tooFew + tooMany <==> e in tooFew || e in tooMany;
      tooFew + tooMany
  }

  /** The shape errors of a dictionary rule: one for a value that is not a dictionary,
      otherwise one for missing mandatory keys and, if strict, one for unknown keys. */
  function DictShapeErrors(mandatory: set<string>, optional: set<string>, strict: bool, v: Value, path: string): (es: seq<Error>)
    ensures !v.VDict? ==> es == [Error(path, NotDictionary)]
    ensures v.VDict? ==> (es == [] <==> KeysAccepted(mandatory, optional, strict, KeysOf(v.entries)))
    ensures (exists e :: e in es && e.reason.MissingKeys?) <==>
              v.VDict? && mandatory - KeysOf(v.entries) != {}
    ensures (exists e :: e in es && e.reason.UnknownKeys?) <==>
              v.VDict? && strict && KeysOf(v.entries) - (mandatory + optional) != {}
    ensures !strict ==> forall e :: e in es ==> !e.reason.UnknownKeys?
    ensures |es| <= 2
  {
    if !v.VDict? then [Error(path, NotDictionary)]
    else
      var keys := KeysOf(v.entries);
      var missed := mandatory - keys;
      var missing := if missed != {} then [Error(path, MissingKeys(missed))] else [];
      var unknownKeys := keys - (mandatory + optional);
      var unknown := if strict && unknownKeys != {} then [Error(path, UnknownKeys(unknownKeys))] else [];
      assert mandatory <= keys <==> missed == {} by {
        if missed == {} {
          forall k | k in mandatory ensures k in keys { assert k !in missed; }
        }
      }
      assert keys <= mandatory + optional <==> unknownKeys == {} by {
        if unknownKeys == {} {
          forall k | k in keys ensures k in mandatory + optional { assert k !in unknownKeys; }
        }
      }
      missing + unknown
  }

  // ---------------------------------------------------------------------------
  // Rules

  class Rule {
    const kind: RuleKind
    const value: Value
    const path: string
    var errors: seq<Error>
    var children: set<Rule>
    /** This rule and every rule below it. */
    ghost var Repr: set<Rule>

    /** A rule tree: children are below this rule, their subtrees are disjoint,
        and a scalar rule has no children. */
    ghost predicate Valid()
      reads this`Repr, this`children, Repr`Repr, Repr`children
      decreases Repr
    {
      this in Repr &&
      (!kind.IsComposite() ==> children == {}) &&
      (forall c :: c in children ==> c in Repr && c.Repr <= Repr && this !in c.Repr && c.Valid()) &&
      (forall c, d :: c in children && d in children && c != d ==> c.Repr !! d.Repr)
    }

    /** No rule of the subtree holds an error yet. */
    ghost predicate Unvalidated()
      reads this`Repr, Repr`errors
    {
      forall m :: m in Repr ==> m.errors == []
    }

    constructor (kind: RuleKind, value: Value, path: string)
      ensures this.kind == kind && this.value == value && this.path == path
      ensures errors == [] && children == {} && Repr == {this}
      ensures Valid() && Unvalidated()
    {
      this.kind := kind;
      this.value := value;
      this.path := path;
      errors := [];
      children := {};
      Repr := {this};
    }

    /** The verdict of a validation pass over the subtree, stated without errors:
        a scalar rule accepts its value, a list or dictionary rule accepts the shape
        of its value and all its children accept, a plain composite needs all its
        children to accept and a set of alternatives needs one. */
    ghost predicate Accepts()
      requires Valid()
      reads this`Repr, this`children, Repr`Repr, Repr`children
      decreases Repr
    {
      match kind
      case CompositeRule => AllChildrenAccept()
      case ListRule(_, _) => ShapeAccepted() && AllChildrenAccept()
      case DictRule(_, _, _) => ShapeAccepted() && AllChildrenAccept()
      case MetaRule => exists c :: c in children && c.Accepts()
      case _ => LeafAccepts(kind, value)
    }

    ghost predicate AllChildrenAccept()
      requires Valid()
      reads this`Repr, this`children, Repr`Repr, Repr`children
      decreases Repr, 0
    {
      forall c :: c in children ==> c.Accepts()
    }

    /** The shape of the value suits a list or dictionary rule (always, for other rules). */
    predicate ShapeAccepted() {
      match kind
      case ListRule(lo, hi) => value.VList? && WithinBounds(lo, hi, |value.items|)
      case DictRule(m, o, s) => value.VDict? && KeysAccepted(m, o, s, KeysOf(value.entries))
      case _ => true
    }

    /** Whether a validation pass goes on to the children: a list or dictionary rule
        only when its value has the right shape, the other composites always. */
    predicate VisitsChildren() {
      kind.IsComposite() && ShapeAccepted()
    }

    /** The shape errors of a list or dictionary rule; none exactly when the shape suits it. */
    function ShapeErrors(): (es: seq<Error>)
      requires kind.ListRule? || kind.DictRule?
      ensures es == [] <==> ShapeAccepted()
      ensures |es| <= 2
    {
      match kind
      case ListRule(lo, hi) => ListShapeErrors(lo, hi, value, path)
      case DictRule(m, o, s) => DictShapeErrors(m, o, s, value, path)
    }

    /** The error a composite adds when some child rejected. */
    ghost function NestedErrors(): seq<Error>
      requires Valid()
      reads this`Repr, this`children, Repr`Repr, Repr`children
    {
      if AllChildrenAccept() then [] else [Error(path, NestedInvalid)]
    }

    /** The errors this rule holds after one validation pass. */
    ghost function OwnErrors(): (es: seq<Error>)
      requires Valid()
      reads this`Repr, this`children, Repr`Repr, Repr`children
      ensures es == [] <==> Accepts()
    {
      match kind
      case CompositeRule => NestedErrors()
      case ListRule(_, _) => if ShapeErrors() != [] then ShapeErrors() else NestedErrors()
      case DictRule(_, _, _) => if ShapeErrors() != [] then ShapeErrors() else NestedErrors()
      case MetaRule =>
        if exists c :: c in children && c.Accepts() then [] else [Error(path, NoValidAlternative)]
      case _ => LeafErrors(kind, value, path)
    }

    /** The state one validation pass leaves the subtree in: every visited rule holds
        its own errors, and the subtrees a pass skips are untouched. */
    ghost predicate Validated()
      requires Valid()
      reads this`Repr, this`children, Repr`Repr, Repr`children, Repr`errors
      decreases Repr
    {
      errors == OwnErrors() &&
      forall c :: c in children ==> if VisitsChildren() then c.Validated() else c.Unvalidated()
    }

    /** One validation pass (`validate()`), on a tree that has not been validated yet.
        The verdict is `Accepts()`; it is true exactly when the rule recorded no error. */
    method Validate() returns (ok: bool)
      requires Valid() && Unvalidated()
      modifies Repr`errors
      ensures ok == Accepts()
      ensures ok <==> errors == []
      ensures Validated()
      ensures !kind.IsComposite() ==> |errors| <= 1
      ensures |errors| <= 2
      decreases Repr, 3
    {
      if !kind.IsComposite() {
        errors := errors + LeafErrors(kind, value, path);
        ok := errors == [];
      } else if kind.MetaRule? {
        ok := ValidateAlternatives();
      } else if kind.CompositeRule? {
        ok := ValidateChildren();
      } else {
        ok := ValidateCollection();
      }
    }

    /** Validation of a list or dictionary rule (`ListNode.validate`, `DictNode.validate`):
        check the shape of the value, and only when that recorded nothing go on to
        the composite part. */
    method ValidateCollection() returns (ok: bool)
      requires Valid() && Unvalidated() && (kind.ListRule? || kind.DictRule?)
      modifies Repr`errors
      ensures ok == Accepts()
      ensures ok <==> errors == []
      ensures Validated()
      ensures |errors| <= 2
      decreases Repr, 2
    {
      errors := errors + ShapeErrors();
      if errors == [] {
        var _ := ValidateChildren();
      }
      ok := errors == [];
    }

    /** The composite part of validation (`CompositeNode.validate`): validate every
        child, then add one error when some child rejected. */
    method ValidateChildren() returns (ok: bool)
      requires Valid() && kind.IsComposite()
      requires forall c :: c in children ==> c.Unvalidated()
      modifies Repr`errors
      ensures errors == old(errors) + NestedErrors()
      ensures ok <==> errors == []
      ensures forall c :: c in children ==> c.Validated()
      decreases Repr, 1
    {
      var pending := children;
      ghost var done: set<Rule> := {};
      var allValid := true;
      while pending != {}
        invariant done + pending == children && done !! pending
        invariant errors == old(errors)
        invariant allValid <==> forall c :: c in done ==> c.Accepts()
        invariant forall c :: c in done ==> c.Validated()
        invariant forall c :: c in pending ==> c.Unvalidated()
        decreases pending
      {
        var c :| c in pending;
        var childValid := ValidateChild(c);
        allValid := childValid && allValid;
        pending := pending - {c};
        done := done + {c};
      }
      if !allValid {
        errors := errors + [Error(path, NestedInvalid)];
      }
      ok := errors == [];
    }

    /** Validates one child; its siblings, whose subtrees are disjoint from the child's,
        keep their verdict and their validation state. */
    method ValidateChild(c: Rule) returns (ok: bool)
      requires Valid() && c in children && c.Unvalidated()
      modifies c.Repr`errors
      ensures ok == c.Accepts() && c.Validated()
      ensures forall d :: d in children ==> d.Valid() && d.Accepts() == old(d.Accepts())
      ensures forall d :: d in children && d != c && old(d.Validated()) ==> d.Validated()
      ensures forall d :: d in children && d != c && old(d.Unvalidated()) ==> d.Unvalidated()
      ensures errors == old(errors)
      decreases Repr, 0
    {
      ok := c.Validate();
    }

    /** Validation of a set of alternatives (`MetaNode.validate`): validate every child,
        accept when one of them accepts, and add one error otherwise. */
    method ValidateAlternatives() returns (ok: bool)
      requires Valid() && kind.MetaRule?
      requires forall c :: c in children ==> c.Unvalidated()
      modifies Repr`errors
      ensures ok <==> exists c :: c in children && c.Accepts()
      ensures errors == old(errors) + (if ok then [] else [Error(path, NoValidAlternative)])
      ensures forall c :: c in children ==> c.Validated()
      decreases Repr, 1
    {
      var pending := children;
      ghost var done: set<Rule> := {};
      ok := false;
      while pending != {}
        invariant done + pending == children && done !! pending
        invariant errors == old(errors)
        invariant ok <==> exists c :: c in done && c.Accepts()
        invariant forall c :: c in done ==> c.Validated()
        invariant forall c :: c in pending ==> c.Unvalidated()
        decreases pending
      {
        var c :| c in pending;
        var alternativeValid := ValidateChild(c);
        ok := ok || alternativeValid;
        pending := pending - {c};
        done := done + {c};
        assert alternativeValid ==> c in done && c.Accepts();
      }
      if !ok {
        errors := errors + [Error(path, NoValidAlternative)];
      }
    }

    /** `add_child`: set insertion on a composite rule; a scalar rule raises instead. */
    method AddChild(node: Rule) returns (raised: bool)
      modifies this`children
      ensures raised <==> !kind.IsComposite()
      ensures children == if raised then old(children) else old(children) + {node}
    {
      if !kind.IsComposite() {
        return true;
      }
      children := children + {node};
      return false;
    }

    /** `remove_child`: discarding from the set on a composite rule, a no-op for a
        rule that is not a child; a scalar rule raises instead. */
    method RemoveChild(node: Rule) returns (raised: bool)
      modifies this`children
      ensures raised <==> !kind.IsComposite()
      ensures children == if raised then old(children) else old(children) - {node}
    {
      if !kind.IsComposite() {
        return true;
      }
      children := children - {node};
      return false;
    }

    // -------------------------------------------------------------------------
    // Error collection

    /** The errors `get_all_errors()` gathers from the subtree, as a bag (the order
        follows the iteration order of the child sets): a rule's own errors and
        everything gathered from its children, except that a set of alternatives
        holding no error of its own gathers nothing. */
    ghost function Collected(): multiset<Error>
      requires Valid()
      reads this`Repr, this`children, Repr`Repr, Repr`children, Repr`errors
      decreases Repr, 1
    {
      if kind.MetaRule? && errors == [] then multiset{}
      else multiset(errors) + CollectedFrom(children)
    }

    ghost function CollectedFrom(s: set<Rule>): multiset<Error>
      requires Valid() && s <= children
      reads this`Repr, this`children, Repr`Repr, Repr`children, Repr`errors
      decreases Repr, 0, s
    {
      if s == {} then multiset{}
      else
        var c :| c in s;
        c.Collected() + CollectedFrom(s - {c})
    }

    /** The bag gathered from a set of children does not depend on the order in
        which they are visited. */
    lemma {:induction false} CollectedFromPick(s: set<Rule>, c: Rule)
      requires Valid() && s <= children && c in s
      ensures CollectedFrom(s) == c.Collected() + CollectedFrom(s - {c})
      decreases s
    {
      var d :| d in s && CollectedFrom(s) == d.Collected() + CollectedFrom(s - {d});
      if d != c {
        CollectedFromPick(s - {d}, c);
        CollectedFromPick(s - {c}, d);
        assert s - {d} - {c} == s - {c} - {d};
      }
    }

    lemma {:induction false} CollectedFromNothing(s: set<Rule>)
      requires Valid() && s <= children
      requires forall c :: c in s ==> c.Collected() == multiset{}
      ensures CollectedFrom(s) == multiset{}
      decreases s
    {
      if s != {} {
        var c :| c in s;
        CollectedFromPick(s, c);
        CollectedFromNothing(s - {c});
      }
    }

    /** `get_all_errors()`: `None` instead of an empty list, otherwise the rule's own
        errors first and then whatever its children gathered, child by child in the
        iteration order of the child set. */
    ghost function GetAllErrors(): (r: Option<seq<Error>>)
      requires Valid()
      reads this`Repr, this`children, Repr`Repr, Repr`children, Repr`errors
      ensures r.None? <==> Collected() == multiset{}
      ensures r.Some? ==> r.value != [] && multiset(r.value) == Collected() && errors <= r.value
      ensures kind.MetaRule? && errors == [] ==> r.None?
      decreases Repr, 3
    {
      var all := if kind.MetaRule? && errors == [] then [] else errors + GatherFrom(children);
      if all == [] then None else Some(all)
    }

    /** What a set of children gathers, concatenated child by child. */
    ghost function GatherFrom(s: set<Rule>): (es: seq<Error>)
      requires Valid() && s <= children
      reads this`Repr, this`children, Repr`Repr, Repr`children, Repr`errors
      ensures multiset(es) == CollectedFrom(s)
      decreases Repr, 2, s
    {
      if s == {} then []
      else
        var c :| c in s;
        var gathered := c.GetAllErrors();
        CollectedFromPick(s, c);
        (if gathered.Some? then gathered.value else []) + GatherFrom(s - {c})
    }

    /** After one validation pass the subtree gathers no error exactly when it
        accepts: a set of alternatives that accepts stays silent even when some of
        its alternatives hold errors. */
    lemma {:induction false} CollectedAfterValidation()
      requires Valid() && Validated()
      ensures Collected() == multiset{} <==> Accepts()
      decreases Repr
    {
      if Accepts() && !kind.MetaRule? {
        assert VisitsChildren() || children == {};
        forall c | c in children
          ensures c.Collected() == multiset{}
        {
          c.CollectedAfterValidation();
        }
        CollectedFromNothing(children);
      }
      if !Accepts() {
        assert errors != [];
        assert errors[0] in multiset(errors);
      }
    }
  }
}
