/**
 The plan-time check of a result path against a declared result shape
 (result_path_error in AINDY/agents/step_references.py).
 */
module ResultShapes {
  import opened Common
  import opened Strings
  import opened Json

  const SCALAR_TYPES := {"string", "number", "integer", "boolean", "null"}

  /** Why a path cannot exist: what was walked, and the part that fails there. */
  datatype PathIssue = PathIssue(walked: seq<string>, part: string)

  predicate IsObjectShape(node: Json) { node.Obj? && Get(node, "properties").Obj? }

  predicate IsListShape(node: Json) {
    node.Obj? && !IsObjectShape(node) && (Has(node, "items") || Get(node, "type") == Str("array"))
  }

  predicate IsScalarShape(node: Json) {
    && node.Obj? && !IsObjectShape(node) && !IsListShape(node)
    && Get(node, "type").Str? && Get(node, "type").s in SCALAR_TYPES
  }

  function CheckParts(node: Json, parts: seq<string>, walked: seq<string>): Option<PathIssue>
    decreases |parts|
  {
    if parts == [] then None
    else
      var part := parts[0];
      if IsObjectShape(node) then
        var extra := Get(node, "additionalProperties");
        if Has(Get(node, "properties"), part) then
          CheckParts(Get(Get(node, "properties"), part), parts[1..], walked + [part])
        else if extra == Bool(true) then None
        else if extra.Obj? then CheckParts(extra, parts[1..], walked + [part])
        else Some(PathIssue(walked, part))
      else if IsListShape(node) then
        if ParseInt(part).None? then Some(PathIssue(walked, part))
        else CheckParts(Get(node, "items"), parts[1..], walked + [part])
      else if IsScalarShape(node) then Some(PathIssue(walked, part))
      else None
  }

  /** Where one part leads: into a shape, to a mistake, or out of what is declared. */
  datatype Move = Into(node: Json) | Missing | Undeclared

  function MoveTo(node: Json, part: string): Move {
    if IsObjectShape(node) then
      var extra := Get(node, "additionalProperties");
      if Has(Get(node, "properties"), part) then Into(Get(Get(node, "properties"), part))
      else if extra == Bool(true) then Undeclared
      else if extra.Obj? then Into(extra)
      else Missing
    else if IsListShape(node) then
      if ParseInt(part).None? then Missing else Into(Get(node, "items"))
    else if IsScalarShape(node) then Missing
    else Undeclared
  }

  lemma CheckStep(node: Json, part: string, rest: seq<string>, walked: seq<string>)
    ensures CheckParts(node, [part] + rest, walked) ==
            match MoveTo(node, part)
            case Into(n) => CheckParts(n, rest, walked + [part])
            case Missing => Some(PathIssue(walked, part))
            case Undeclared => None
  {
    assert ([part] + rest)[0] == part && ([part] + rest)[1..] == rest;
  }

  method WalkPart(node: Json, part: string) returns (m: Move)
    ensures m == MoveTo(node, part)
  {
    m := Undeclared;
    if node.Obj? {
      var props := Get(node, "properties");
      var kind := Get(node, "type");
      if props.Obj? {
        var extra := Get(node, "additionalProperties");
        if Has(props, part) {
          m := Into(Get(props, part));
        } else if extra != Bool(true) {
          m := if extra.Obj? then Into(extra) else Missing;
        }
      } else if Has(node, "items") || kind == Str("array") {
        m := if ParseInt(part).None? then Missing else Into(Get(node, "items"));
      } else if kind.Str? && kind.s in SCALAR_TYPES {
        m := Missing;
      }
    }
  }

  method ResultPathError(schema: Json, path: string) returns (r: Option<PathIssue>)
    ensures r == CheckParts(schema, Split(path, '.'), [])
  {
    var parts := Split(path, '.');
    var node, walked, i := schema, [], 0;
    while i < |parts|
      invariant 0 <= i <= |parts| && walked == parts[..i]
      invariant CheckParts(schema, parts, []) == CheckParts(node, parts[i..], walked)
    {
      var part := parts[i];
      assert parts[i..] == [part] + parts[i + 1..] && parts[..i + 1] == walked + [part];
      CheckStep(node, part, parts[i + 1..], walked);
      var m := WalkPart(node, part);
      match m
      case Missing => return Some(PathIssue(walked, part));
      case Undeclared => return None;
      case Into(n) => node := n;
      walked := walked + [part];
      i := i + 1;
    }
    r := None;
  }

  // ------------------------------------------------------------------ values of a shape

  predicate IsScalarOf(v: Json, kind: string) {
    match kind
    case "string" => v.Str?
    case "number" => v.Int? || v.Float?
    case "integer" => v.Int?
    case "boolean" => v.Bool?
    case _ => v.Null?
  }

  /**
   What a shape declares about a value: an object with `properties` holds those keys, other
   keys only as `additionalProperties` allows; a list holds items of one shape; a scalar type
   is that scalar; any other node declares nothing.  `required` says nothing about where a
   path can lead and is not read.
   */
  predicate Conforms(v: Json, node: Json)
    decreases v
  {
    if IsObjectShape(node) then
      var props, extra := Get(node, "properties"), Get(node, "additionalProperties");
      && v.Obj? && |v.keys| == |v.items|
      && forall i :: 0 <= i < |v.items| ==>
           if Has(props, v.keys[i]) then Conforms(v.items[i], Get(props, v.keys[i]))
           else extra == Bool(true) || (extra.Obj? && Conforms(v.items[i], extra))
    else if IsListShape(node) then
      v.Arr? && forall i :: 0 <= i < |v.items| ==> Conforms(v.items[i], Get(node, "items"))
    else if IsScalarShape(node) then IsScalarOf(v, Get(node, "type").s)
    else true
  }

  /** Sound: a refused path is missing from every value of the shape. */
  lemma {:induction false} RefusedPathIsMissing(v: Json, node: Json, parts: seq<string>, walked: seq<string>)
    requires Conforms(v, node) && CheckParts(node, parts, walked).Some?
    ensures Descend(v, parts).None?
    decreases |parts|
  {
    var part := parts[0];
    var c := Child(v, part);
    if c.Some? {
      if IsObjectShape(node) {
        var props, extra := Get(node, "properties"), Get(node, "additionalProperties");
        var i := KeyIndex(v.keys, part);
        assert c.value == v.items[i] && v.keys[i] == part;
        var next := if Has(props, part) then Get(props, part) else extra;
        RefusedPathIsMissing(c.value, next, parts[1..], walked + [part]);
      } else {
        RefusedPathIsMissing(c.value, Get(node, "items"), parts[1..], walked + [part]);
      }
    }
  }

  /** Some value of the shape. */
  function Sample(node: Json): (v: Json)
    ensures Conforms(v, node)
  {
    if IsObjectShape(node) then Obj([], [])
    else if IsListShape(node) then Arr([])
    else if IsScalarShape(node) then
      match Get(node, "type").s
      case "string" => Str("")
      case "number" => Int(0)
      case "integer" => Int(0)
      case "boolean" => Bool(false)
      case _ => Null
    else Null
  }

  function Repeat(v: Json, n: nat): (r: seq<Json>)
    ensures |r| == n && forall i :: 0 <= i < n ==> r[i] == v
  {
    seq(n, _ => v)
  }

  /** A list long enough for an index of either sign. */
  function ListAt(v: Json, i: int): (r: Json)
    ensures r.Arr? && forall k :: 0 <= k < |r.items| ==> r.items[k] == v
    ensures -|r.items| <= i < |r.items|
  {
    Arr(Repeat(v, if i < 0 then -i else i + 1))
  }

  /** A value that contains the path, of the shape as far as the check walked. */
  function Witness(node: Json, parts: seq<string>): (v: Json)
    decreases |parts|
  {
    if parts == [] then Sample(node)
    else
      var part := parts[0];
      if IsObjectShape(node) then
        var props, extra := Get(node, "properties"), Get(node, "additionalProperties");
        Obj([part], [Witness(if Has(props, part) then Get(props, part) else extra, parts[1..])])
      else if IsListShape(node) && ParseInt(part).Some? then
        ListAt(Witness(Get(node, "items"), parts[1..]), ParseInt(part).value)
      else Obj([part], [Witness(Null, parts[1..])])
  }

  /** An accepted path leads somewhere in the witness, and the witness has the shape. */
  lemma {:induction false} AcceptedPathExists(node: Json, parts: seq<string>, walked: seq<string>)
    requires CheckParts(node, parts, walked).None?
    ensures Conforms(Witness(node, parts), node) && Descend(Witness(node, parts), parts).Some?
    decreases |parts|
  {
    if parts != [] {
      var part := parts[0];
      var v := Witness(node, parts);
      if IsObjectShape(node) {
        var props, extra := Get(node, "properties"), Get(node, "additionalProperties");
        var next := if Has(props, part) then Get(props, part) else extra;
        AcceptedPathExists(next, parts[1..], walked + [part]);
        assert v.keys[0] == part;
      } else if IsListShape(node) {
        AcceptedPathExists(Get(node, "items"), parts[1..], walked + [part]);
      } else {
        AcceptedPathExists(Null, parts[1..], walked + [part]);
      }
    }
  }

  /** Some value of the shape contains the path. */
  ghost predicate Reaches(shape: Json, path: string) {
    exists v :: Conforms(v, shape) && Descend(v, Split(path, '.')).Some?
  }

  /** The check accepts a path exactly when some value of the declared shape contains it. */
  lemma PathCheckExact(schema: Json, path: string)
    ensures CheckParts(schema, Split(path, '.'), []).None? <==> Reaches(schema, path)
  {
    var parts := Split(path, '.');
    if CheckParts(schema, parts, []).None? {
      AcceptedPathExists(schema, parts, []);
    } else {
      forall v | Conforms(v, schema) ensures Descend(v, parts).None? {
        RefusedPathIsMissing(v, schema, parts, []);
      }
    }
  }
}
