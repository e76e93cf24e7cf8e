/** JSON values as the runtime reads them, and the dot paths of AINDY/core/result_path.py. */
module Json {
  import opened Common
  import opened Strings

  /** An object is an ordered dictionary: `keys[i]` names `items[i]`. */
  datatype Json =
    | Null
    | Bool(b: bool)
    | Int(n: int)
    | Float(r: real)
    | Str(s: string)
    | Arr(items: seq<Json>)
    | Obj(keys: seq<string>, items: seq<Json>)

  function KeyIndex(keys: seq<string>, key: string): (i: nat)
    ensures i <= |keys|
    ensures i < |keys| <==> key in keys
    ensures i < |keys| ==> keys[i] == key
  {
    if keys == [] then 0 else if keys[0] == key then 0 else 1 + KeyIndex(keys[1..], key)
  }

  predicate Has(v: Json, key: string) {
    v.Obj? && KeyIndex(v.keys, key) < |v.keys| && KeyIndex(v.keys, key) < |v.items|
  }

  /** `v.get(key)` of an object; Null when absent. */
  function Get(v: Json, key: string): (r: Json)
    ensures Has(v, key) ==> r in v.items
  {
    if Has(v, key) then v.items[KeyIndex(v.keys, key)] else Null
  }

  /** `bool(v)`. */
  predicate Truthy(v: Json) {
    match v
    case Null => false
    case Bool(b) => b
    case Int(n) => n != 0
    case Float(r) => r != 0.0
    case Str(s) => s != ""
    case Arr(items) => items != []
    case Obj(keys, _) => keys != []
  }

  // ------------------------------------------------------------------ dot paths

  predicate PathWellFormed(path: Json) {
    path.Str? && path.s != "" && forall i :: 0 <= i < |Split(path.s, '.')| ==> Split(path.s, '.')[i] != ""
  }

  /** One segment: a key of an object first, else an index into a list, counted from the end when negative. */
  function Child(v: Json, part: string): Option<Json> {
    if Has(v, part) then Some(Get(v, part))
    else if v.Arr? then
      var i := ParseInt(part);
      if i.None? then None
      else if 0 <= i.value < |v.items| then Some(v.items[i.value])
      else if -|v.items| <= i.value < 0 then Some(v.items[|v.items| + i.value])
      else None
    else None
  }

  /** None is MISSING. */
  function Descend(v: Json, parts: seq<string>): Option<Json> {
    if parts == [] then Some(v)
    else
      var c := Child(v, parts[0]);
      if c.None? then None else Descend(c.value, parts[1..])
  }

  lemma TruthyExactly(v: Json)
    ensures Truthy(v) <==> v !in {Null, Bool(false), Int(0), Float(0.0), Str(""), Arr([])} && !(v.Obj? && v.keys == [])
  {
  }

  /** Every dot is followed by something that is not a dot. */
  predicate DotsInside(s: string) { forall i :: 0 <= i < |s| && s[i] == '.' ==> i + 1 < |s| && s[i + 1] != '.' }

  predicate TailFilled(s: string) { forall i :: 0 < i < |Split(s, '.')| ==> Split(s, '.')[i] != "" }

  lemma DotsShift(s: string)
    requires s != ""
    ensures DotsInside(s) <==> DotsInside(s[1..]) && (s[0] == '.' ==> |s| > 1 && s[1] != '.')
  {
    if DotsInside(s) {
      forall i | 0 <= i < |s[1..]| && s[1..][i] == '.' ensures i + 1 < |s[1..]| && s[1..][i + 1] != '.' {
        assert s[i + 1] == '.';
      }
    }
    if DotsInside(s[1..]) && (s[0] == '.' ==> |s| > 1 && s[1] != '.') {
      forall i | 0 <= i < |s| && s[i] == '.' ensures i + 1 < |s| && s[i + 1] != '.' {
        if i > 0 { assert s[1..][i - 1] == '.'; }
      }
    }
  }

  lemma {:induction false} SplitFilled(s: string)
    ensures Split(s, '.')[0] == "" <==> s == "" || s[0] == '.'
    ensures TailFilled(s) <==> DotsInside(s)
  {
    if s != "" {
      SplitFilled(s[1..]);
      DotsShift(s);
      var parts, rest := Split(s, '.'), Split(s[1..], '.');
      if s[0] == '.' {
        assert forall i :: 0 < i < |parts| ==> parts[i] == rest[i - 1];
        assert forall i :: 0 <= i < |rest| ==> rest[i] == parts[i + 1];
      } else {
        assert forall i :: 0 < i < |parts| ==> parts[i] == rest[i];
      }
    }
  }

  /** A path is well formed when it is a text that is not empty, does not start with a dot, and has only dots with a part behind them. */
  lemma PathWellFormedIff(path: Json)
    ensures PathWellFormed(path) <==> path.Str? && path.s != "" && path.s[0] != '.' && DotsInside(path.s)
  {
    if path.Str? { SplitFilled(path.s); }
  }

  // ------------------------------------------------------------------ what a path means

  datatype Part = Key(name: string) | Index(i: int)

  function Text(part: Part): string {
    match part
    case Key(name) => name
    case Index(i) => Decimal(i)
  }

  /** From v to w by this part: the first entry of that name in an object, or the element of a list, from the end when negative. */
  ghost predicate Leads(v: Json, part: Part, w: Json) {
    match part
    case Key(name) =>
      v.Obj? && exists j :: 0 <= j < |v.keys| && j < |v.items| && v.keys[j] == name && name !in v.keys[..j] && w == v.items[j]
    case Index(i) =>
      v.Arr? && ((0 <= i < |v.items| && w == v.items[i]) || (-|v.items| <= i < 0 && w == v.items[|v.items| + i]))
  }

  lemma {:induction false} KeyIndexFirst(keys: seq<string>, key: string)
    ensures key !in keys[..KeyIndex(keys, key)]
  {
    if keys != [] && keys[0] != key {
      KeyIndexFirst(keys[1..], key);
      assert keys[..KeyIndex(keys, key)] == [keys[0]] + keys[1..][..KeyIndex(keys[1..], key)];
    }
  }

  lemma FirstIsKeyIndex(keys: seq<string>, key: string, j: nat)
    requires j < |keys| && keys[j] == key && key !in keys[..j]
    ensures KeyIndex(keys, key) == j
  {
    KeyIndexFirst(keys, key);
    var i := KeyIndex(keys, key);
    assert forall k :: 0 <= k < j ==> keys[..j][k] == keys[k];
    assert forall k :: 0 <= k < i ==> keys[..i][k] == keys[k];
  }

  /** A part is found exactly where it leads, and a list is entered by whatever reads as an index. */
  lemma ChildIff(v: Json, part: string, w: Json)
    ensures Child(v, part) == Some(w) <==>
            Leads(v, Key(part), w) || (v.Arr? && ParseInt(part).Some? && Leads(v, Index(ParseInt(part).value), w))
  {
    if v.Obj? {
      KeyIndexFirst(v.keys, part);
      if j :| 0 <= j < |v.keys| && j < |v.items| && v.keys[j] == part && part !in v.keys[..j] && w == v.items[j] {
        FirstIsKeyIndex(v.keys, part, j);
      }
    }
  }

  lemma LeadsToChild(v: Json, part: Part, w: Json)
    requires Leads(v, part, w)
    ensures Child(v, Text(part)) == Some(w)
  {
    ChildIff(v, Text(part), w);
    if part.Index? { ParseDecimal(part.i); }
  }

  function Texts(parts: seq<Part>): seq<string> {
    seq(|parts|, k requires 0 <= k < |parts| => Text(parts[k]))
  }

  lemma {:induction false} DescendsAlong(values: seq<Json>, parts: seq<Part>)
    requires |values| == |parts| + 1 && forall k :: 0 <= k < |parts| ==> Leads(values[k], parts[k], values[k + 1])
    ensures Descend(values[0], Texts(parts)) == Some(values[|parts|])
  {
    if parts != [] {
      LeadsToChild(values[0], parts[0], values[1]);
      DescendsAlong(values[1..], parts[1..]);
      assert Texts(parts)[1..] == Texts(parts[1..]);
    }
  }

  /** The dotted text of any way through a value resolves to where the way ends. */
  lemma PathResolves(values: seq<Json>, parts: seq<Part>)
    requires |values| == |parts| + 1 > 1 && forall k :: 0 <= k < |parts| ==> Leads(values[k], parts[k], values[k + 1])
    requires forall k :: 0 <= k < |parts| && parts[k].Key? ==> '.' !in parts[k].name
    ensures Descend(values[0], Split(Join(Texts(parts), '.'), '.')) == Some(values[|parts|])
  {
    forall k | 0 <= k < |parts| ensures '.' !in Texts(parts)[k] {
      if parts[k].Index? { DecimalPlain(parts[k].i, '.'); }
    }
    SplitJoin(Texts(parts), '.');
    DescendsAlong(values, parts);
  }

  method ResolvePath(payload: Json, path: string) returns (r: Option<Json>)
    ensures r == Descend(payload, Split(path, '.'))
  {
    var parts := Split(path, '.');
    var cur := payload;
    var i := 0;
    while i < |parts|
      invariant 0 <= i <= |parts|
      invariant Descend(payload, parts) == Descend(cur, parts[i..])
    {
      assert parts[i..][1..] == parts[i + 1..];
      var c := Child(cur, parts[i]);
      if c.None? { return None; }
      cur := c.value;
      i := i + 1;
    }
    r := Some(cur);
  }
}
