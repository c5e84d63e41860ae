/** Configuration values and schema fragments.

    The validator works on nested Python values loaded from YAML or built in
    code; both the configuration under test and the schema describing it are
    such values.  They are modelled as one closed datatype.  A dictionary is an
    association list whose entry order is the dictionary's iteration order;
    its keys are strings. */
module Values {

  datatype Option<+T> = None | Some(value: T)

  datatype Value =
    | VNone                                   // Python None (also YAML null)
    | VInt(i: int)                            // an int or long
    | VBool(b: bool)                          // True / False, disjoint from VInt
    | VStr(s: string)                         // str or unicode
    | VList(items: seq<Value>)                // list
    | VDict(entries: seq<(string, Value)>)    // dict, keys in iteration order
    | VOther(truthy: bool)                    // any other Python object (float, tuple, ...) and its truth value

  /** Bounds of CPython 2's machine integer on a 64-bit platform: outside them a
      number has type `long`, which `type(v) == int` rejects. */
  const PyIntMin: int := -0x8000_0000_0000_0000
  const PyIntMax: int := 0x7fff_ffff_ffff_ffff

  /** `type(v) == int`: a machine integer, never a boolean. */
  predicate IsPyInt(v: Value) {
    v.VInt? && PyIntMin <= v.i <= PyIntMax
  }

  /** Python truthiness of a value (`if v:`); another object carries its own truth
      value (`0.0`, `()` and `frozenset()` are false, most objects true). */
  predicate Truthy(v: Value) {
    match v
    case VNone => false
    case VInt(i) => i != 0
    case VBool(b) => b
    case VStr(s) => s != ""
    case VList(items) => items != []
    case VDict(entries) => entries != []
    case VOther(t) => t
  }

  // ---------------------------------------------------------------------------
  // Dictionaries

  /** The key set of a dictionary, `set(d.keys())`. */
  function KeysOf(entries: seq<(string, Value)>): (keys: set<string>)
    ensures forall i :: 0 <= i < |entries| ==> entries[i].0 in keys
    ensures forall k :: k in keys ==> exists i :: 0 <= i < |entries| && entries[i].0 == k
  {
    set i | 0 <= i < |entries| :: entries[i].0
  }

  /** `d[k]` for a key that is present: the value of the first entry with that key. */
  function Lookup(entries: seq<(string, Value)>, k: string): (v: Value)
    requires k in KeysOf(entries)
    ensures exists i :: 0 <= i < |entries| && entries[i] == (k, v)
  {
    if entries[0].0 == k then entries[0].1
    else
      assert k in KeysOf(entries[1..]) by {
        var i :| 0 <= i < |entries| && entries[i].0 == k;
        assert entries[1..][i - 1].0 == k;
      }
      var v := Lookup(entries[1..], k);
      ghost var i :| 0 <= i < |entries[1..]| && entries[1..][i] == (k, v);
      assert entries[i + 1] == (k, v);
      v
  }

  /** `d.get(k, default)`. */
  function GetOr(entries: seq<(string, Value)>, k: string, default: Value): (v: Value)
    ensures k !in KeysOf(entries) ==> v == default
    ensures k in KeysOf(entries) ==> exists i :: 0 <= i < |entries| && entries[i] == (k, v)
  {
    if k in KeysOf(entries) then Lookup(entries, k) else default
  }

  /** `d.get(k)`: None both when the key is missing and when it maps to None. */
  function Get(entries: seq<(string, Value)>, k: string): Value {
    GetOr(entries, k, VNone)
  }

  // ---------------------------------------------------------------------------
  // Size of a value, the measure that every schema sub-fragment decreases

  function Size(v: Value): nat {
    match v
    case VList(items) => 1 + ItemsSize(items)
    case VDict(entries) => 1 + EntriesSize(entries)
    case _ => 1
  }

  function ItemsSize(items: seq<Value>): nat {
    if items == [] then 0 else Size(items[0]) + ItemsSize(items[1..])
  }

  function EntriesSize(entries: seq<(string, Value)>): nat {
    if entries == [] then 0 else EntrySize(entries[0]) + EntriesSize(entries[1..])
  }

  function EntrySize(entry: (string, Value)): nat {
    Size(entry.1)
  }

  /** Every element of a list is smaller than the list. */
  lemma {:induction false} ItemSmaller(items: seq<Value>, i: nat)
    requires i < |items|
    ensures Size(items[i]) < Size(VList(items))
  {
    if i > 0 {
      ItemSmaller(items[1..], i - 1);
    }
  }

  /** Every value stored in a dictionary is smaller than the dictionary. */
  lemma {:induction false} EntrySmaller(entries: seq<(string, Value)>, i: nat)
    requires i < |entries|
    ensures Size(entries[i].1) < Size(VDict(entries))
  {
    assert EntrySize(entries[0]) == Size(entries[0].1);
    if i > 0 {
      EntrySmaller(entries[1..], i - 1);
      assert entries[1..][i - 1] == entries[i];
    }
  }

  /** What `d.get(k, default)` finds in a dictionary is smaller than the dictionary,
      unless it is the default. */
  lemma GetOrSmaller(entries: seq<(string, Value)>, k: string, default: Value)
    ensures GetOr(entries, k, default) == default || Size(GetOr(entries, k, default)) < Size(VDict(entries))
  {
    if k in KeysOf(entries) {
      var i :| 0 <= i < |entries| && entries[i] == (k, GetOr(entries, k, default));
      EntrySmaller(entries, i);
    }
  }

  // ---------------------------------------------------------------------------
  // Decimal digits: `str.isdigit()` and `str(n)`

  predicate IsDigitChar(c: char) {
    '0' <= c <= '9'
  }

  predicate AllDigits(s: string) {
    forall i :: 0 <= i < |s| ==> IsDigitChar(s[i])
  }

  /** `s.isdigit()` on an ASCII string: non-empty and made of decimal digits only. */
  predicate IsDigitString(s: string) {
    |s| > 0 && AllDigits(s)
  }

  function DigitChar(d: nat): (c: char)
    requires d < 10
    ensures IsDigitChar(c) && (c as int) - ('0' as int) == d
  {
    (('0' as int) + d) as char
  }

  /** `str(n)` for a non-negative integer: its decimal numeral. */
  function NatToString(n: nat): (s: string)
    ensures IsDigitString(s)
    decreases n
  {
    if n < 10 then [DigitChar(n)] else NatToString(n / 10) + [DigitChar(n % 10)]
  }

  /** The number a string of decimal digits denotes, `int(s)`. */
  function DigitsValue(s: string): nat
    requires AllDigits(s)
  {
    if s == [] then 0
    else DigitsValue(s[..|s| - 1]) * 10 + ((s[|s| - 1] as int) - ('0' as int))
  }

  /** `int(str(n)) == n`. */
  lemma {:induction false} NatToStringRoundTrip(n: nat)
    ensures DigitsValue(NatToString(n)) == n
  {
    if n >= 10 {
      NatToStringRoundTrip(n / 10);
      var s := NatToString(n);
      assert s[..|s| - 1] == NatToString(n / 10);
    }
  }

  /** Different numbers have different numerals, so the paths built from indices differ. */
  lemma NatToStringInjective(a: nat, b: nat)
    requires NatToString(a) == NatToString(b)
    ensures a == b
  {
    NatToStringRoundTrip(a);
    NatToStringRoundTrip(b);
  }
}
