/**
  The capability router's recursive schema checker. Its errors are kept as data:
  the place in the value where a schema is broken, and how.
 */
module Schemas {
  import opened Prelude
  import opened OrderedDict
  import opened Proposals

  /** `kind` is the schema's "type" entry; a property whose schema is not a mapping is None. */
  datatype Schema = Schema(kind: Option<string>, required: seq<string>, properties: seq<Item<string, Option<Schema>>>,
    items: Option<Schema>)

  datatype Place = Member(key: string) | Element(index: nat)
  datatype Flaw = WrongType(expected: string) | Missing(key: string)
  datatype Violation = Violation(path: seq<Place>, flaw: Flaw)

  const TYPE_NAMES: set<string> := {"object", "array", "string", "integer", "number", "boolean", "null"}

  /** Python's `isinstance` against the type map: a boolean is an integer and a number too. */
  predicate IsA(v: Value, name: string)
    requires name in TYPE_NAMES
  {
    match name
    case "object" => v.Dict?
    case "array" => v.Seq? && v.kind == List
    case "string" => v.Str?
    case "integer" => v.Int? || v.Bool?
    case "number" => v.Int? || v.Bool? || v.Float?
    case "boolean" => v.Bool?
    case _ => v.Null?
  }

  /** The type names that take a value, from the value's side. */
  lemma NamesOf(v: Value)
    ensures (set name | name in TYPE_NAMES && IsA(v, name)) ==
            match v
            case Null => {"null"}
            case Bool(_) => {"boolean", "integer", "number"}
            case Int(_) => {"integer", "number"}
            case Float(_) => {"number"}
            case Str(_) => {"string"}
            case Seq(kind, _) => if kind == List then {"array"} else {}
            case Dict(_) => {"object"}
            case Enum(_, _) => {}
            case Other(_) => {}
  {
  }

  predicate Mistyped(v: Value, s: Schema) {
    s.kind.Some? && s.kind.value in TYPE_NAMES && !IsA(v, s.kind.value)
  }

  // ---- the checker --------------------------------------------------------

  function Validate(v: Value, s: Schema, path: seq<Place>): seq<Violation>
    decreases s, 0
  {
    if Mistyped(v, s) then [Violation(path, WrongType(s.kind.value))]
    else if s.kind == Some("object")
      then RequiredErrors(v.entries, s.required, path) + PropertyErrors(v.entries, s.properties, path)
    else if s.kind == Some("array") && s.items.Some? then ItemErrors(v.items, s.items.value, path)
    else []
  }

  function RequiredErrors(es: Entries, required: seq<string>, path: seq<Place>): seq<Violation> {
    if required == [] then []
    else
      var rest := RequiredErrors(es, required[1..], path);
      if Get(es, Text(required[0])).None? then [Violation(path, Missing(required[0]))] + rest else rest
  }

  function PropertyErrors(es: Entries, properties: seq<Item<string, Option<Schema>>>, path: seq<Place>): seq<Violation>
    decreases properties, 1
  {
    if properties == [] then []
    else
      var p := properties[0];
      assert (properties decreases to p);
      var rest := PropertyErrors(es, properties[1..], path);
      var found := Get(es, Text(p.key));
      if found.Some? && p.value.Some? then Validate(found.value, p.value.value, path + [Member(p.key)]) + rest else rest
  }

  function ItemErrors(items: seq<Value>, s: Schema, path: seq<Place>): seq<Violation>
    decreases s, 1 + |items|
  {
    if items == [] then []
    else ItemErrors(items[..|items| - 1], s, path) + Validate(items[|items| - 1], s, path + [Element(|items| - 1)])
  }

  // ---- what it means to conform ---------------------------------------------

  /** The value `there` lies at `path` inside `v`, and the schema of `v` puts it under the schema `under`. */
  ghost predicate Governs(v: Value, s: Schema, path: seq<Place>, there: Value, under: Schema)
    decreases |path|
  {
    if path == [] then there == v && under == s
    else
      match path[0]
      case Member(key) =>
        s.kind == Some("object") && v.Dict? && Get(v.entries, Text(key)).Some?
        && exists i :: 0 <= i < |s.properties| && s.properties[i].key == key && s.properties[i].value.Some?
                       && Governs(Get(v.entries, Text(key)).value, s.properties[i].value.value, path[1..], there, under)
      case Element(index) =>
        s.kind == Some("array") && v.Seq? && v.kind == List && index < |v.items| && s.items.Some?
        && Governs(v.items[index], s.items.value, path[1..], there, under)
  }

  /** What a schema asks of a value on the spot, without looking inside it. */
  predicate Broken(v: Value, s: Schema, flaw: Flaw) {
    match flaw
    case WrongType(expected) => s.kind == Some(expected) && expected in TYPE_NAMES && !IsA(v, expected)
    case Missing(key) => s.kind == Some("object") && v.Dict? && key in s.required && Get(v.entries, Text(key)).None?
  }

  ghost predicate BrokenAt(v: Value, s: Schema, path: seq<Place>, flaw: Flaw) {
    exists there, under :: Governs(v, s, path, there, under) && Broken(there, under, flaw)
  }

  /** Every place of the value that a schema governs satisfies that schema on the spot. */
  ghost predicate Conforms(v: Value, s: Schema) {
    forall path, there, under, flaw :: Governs(v, s, path, there, under) ==> !Broken(there, under, flaw)
  }

  // ---- the checker reports exactly the broken places --------------------------

  ghost predicate Explains(v: Value, s: Schema, path: seq<Place>, e: Violation) {
    path <= e.path && BrokenAt(v, s, e.path[|path|..], e.flaw)
  }

  lemma {:induction false} RequiredExact(es: Entries, required: seq<string>, path: seq<Place>, e: Violation)
    ensures e in RequiredErrors(es, required, path) <==>
            e.path == path && e.flaw.Missing? && e.flaw.key in required && Get(es, Text(e.flaw.key)).None?
  {
    if required != [] { RequiredExact(es, required[1..], path, e); }
  }

  ghost predicate PropertyExplains(es: Entries, p: Item<string, Option<Schema>>, path: seq<Place>, e: Violation) {
    p.value.Some? && Get(es, Text(p.key)).Some?
      && Explains(Get(es, Text(p.key)).value, p.value.value, path + [Member(p.key)], e)
  }

  lemma {:induction false} PropertyExact(es: Entries, properties: seq<Item<string, Option<Schema>>>, path: seq<Place>,
    e: Violation)
    ensures e in PropertyErrors(es, properties, path) <==>
            exists i :: 0 <= i < |properties| && PropertyExplains(es, properties[i], path, e)
    decreases properties, 1
  {
    if properties != [] {
      var p, rest := properties[0], properties[1..];
      PropertyExact(es, rest, path, e);
      assert (properties decreases to p);
      if p.value.Some? && Get(es, Text(p.key)).Some? {
        ValidateExact(Get(es, Text(p.key)).value, p.value.value, path + [Member(p.key)], e);
      }
      if i :| 0 <= i < |rest| && PropertyExplains(es, rest[i], path, e) {
        assert PropertyExplains(es, properties[i + 1], path, e);
      }
      if i :| 0 <= i < |properties| && PropertyExplains(es, properties[i], path, e) {
        assert i > 0 ==> properties[i] == rest[i - 1];
      }
    }
  }

  lemma {:induction false} ItemExact(items: seq<Value>, s: Schema, path: seq<Place>, e: Violation)
    ensures e in ItemErrors(items, s, path) <==>
            exists i :: 0 <= i < |items| && Explains(items[i], s, path + [Element(i)], e)
    decreases s, 1 + |items|
  {
    if items != [] {
      var front := items[..|items| - 1];
      ItemExact(front, s, path, e);
      ValidateExact(items[|items| - 1], s, path + [Element(|items| - 1)], e);
      if i :| 0 <= i < |front| && Explains(front[i], s, path + [Element(i)], e) {
        assert Explains(items[i], s, path + [Element(i)], e);
      }
      if i :| 0 <= i < |items| && Explains(items[i], s, path + [Element(i)], e) {
        assert i < |front| ==> items[i] == front[i];
      }
    }
  }

  lemma BrokenHere(v: Value, s: Schema, flaw: Flaw)
    ensures BrokenAt(v, s, [], flaw) <==> Broken(v, s, flaw)
  {
    assert Governs(v, s, [], v, s);
  }

  ghost predicate MemberBroken(v: Value, s: Schema, key: string, rest: seq<Place>, flaw: Flaw, i: int) {
    && s.kind == Some("object") && v.Dict? && Get(v.entries, Text(key)).Some?
    && 0 <= i < |s.properties| && s.properties[i].key == key && s.properties[i].value.Some?
    && BrokenAt(Get(v.entries, Text(key)).value, s.properties[i].value.value, rest, flaw)
  }

  lemma BrokenInMember(v: Value, s: Schema, path: seq<Place>, flaw: Flaw)
    requires path != [] && path[0].Member?
    ensures BrokenAt(v, s, path, flaw) <==> exists i :: MemberBroken(v, s, path[0].key, path[1..], flaw, i)
  {
    var key := path[0].key;
    if there, under :| Governs(v, s, path, there, under) && Broken(there, under, flaw) {
      var i :| 0 <= i < |s.properties| && s.properties[i].key == key && s.properties[i].value.Some?
               && Governs(Get(v.entries, Text(key)).value, s.properties[i].value.value, path[1..], there, under);
      assert MemberBroken(v, s, key, path[1..], flaw, i);
    }
    if i :| MemberBroken(v, s, key, path[1..], flaw, i) {
      var there, under :| Governs(Get(v.entries, Text(key)).value, s.properties[i].value.value, path[1..], there, under)
        && Broken(there, under, flaw);
      assert Governs(v, s, path, there, under);
    }
  }

  lemma BrokenInElement(v: Value, s: Schema, path: seq<Place>, flaw: Flaw)
    requires path != [] && path[0].Element?
    ensures BrokenAt(v, s, path, flaw) <==>
            s.kind == Some("array") && v.Seq? && v.kind == List && path[0].index < |v.items| && s.items.Some?
            && BrokenAt(v.items[path[0].index], s.items.value, path[1..], flaw)
  {
    if there, under :| Governs(v, s, path, there, under) && Broken(there, under, flaw) {
      assert Governs(v.items[path[0].index], s.items.value, path[1..], there, under);
    }
    if s.kind == Some("array") && v.Seq? && v.kind == List && path[0].index < |v.items| && s.items.Some?
      && BrokenAt(v.items[path[0].index], s.items.value, path[1..], flaw) {
      var there, under :| Governs(v.items[path[0].index], s.items.value, path[1..], there, under)
        && Broken(there, under, flaw);
      assert Governs(v, s, path, there, under);
    }
  }

  /** The rest of a path below one more place. */
  lemma Below(path: seq<Place>, place: Place, whole: seq<Place>)
    ensures path + [place] <= whole <==> path < whole && whole[|path|..][0] == place
    ensures path < whole ==> whole[|path|..][1..] == whole[|path + [place]|..]
  {
    if path < whole && whole[|path|] == place { assert path + [place] == whole[..|path| + 1]; }
    if path + [place] <= whole { assert path == whole[..|path|]; }
  }

  lemma ObjectExplained(v: Value, s: Schema, path: seq<Place>, e: Violation, i: nat)
    requires s.kind == Some("object") && v.Dict? && i < |s.properties|
             && PropertyExplains(v.entries, s.properties[i], path, e)
    ensures path < e.path && Explains(v, s, path, e)
  {
    var key := s.properties[i].key;
    Below(path, Member(key), e.path);
    BrokenInMember(v, s, e.path[|path|..], e.flaw);
    assert MemberBroken(v, s, key, e.path[|path|..][1..], e.flaw, i);
  }

  lemma ObjectExplains(v: Value, s: Schema, path: seq<Place>, e: Violation)
    requires s.kind == Some("object") && v.Dict? && path < e.path && Explains(v, s, path, e)
    ensures exists i :: 0 <= i < |s.properties| && PropertyExplains(v.entries, s.properties[i], path, e)
  {
    var rel := e.path[|path|..];
    match rel[0]
    case Member(key) =>
      BrokenInMember(v, s, rel, e.flaw);
      var i :| MemberBroken(v, s, key, rel[1..], e.flaw, i);
      Below(path, Member(key), e.path);
      assert PropertyExplains(v.entries, s.properties[i], path, e);
    case Element(_) =>
      BrokenInElement(v, s, rel, e.flaw);
  }

  lemma ArrayExplained(v: Value, s: Schema, path: seq<Place>, e: Violation, i: nat)
    requires s.kind == Some("array") && v.Seq? && v.kind == List && s.items.Some? && i < |v.items|
    requires Explains(v.items[i], s.items.value, path + [Element(i)], e)
    ensures path < e.path && Explains(v, s, path, e)
  {
    Below(path, Element(i), e.path);
    BrokenInElement(v, s, e.path[|path|..], e.flaw);
  }

  /** Below a value there is a broken place only inside an object or an array that the schema describes. */
  lemma ArrayExplains(v: Value, s: Schema, path: seq<Place>, e: Violation)
    requires s.kind != Some("object") && path < e.path && Explains(v, s, path, e)
    ensures s.kind == Some("array") && v.Seq? && v.kind == List && s.items.Some?
    ensures exists i :: 0 <= i < |v.items| && Explains(v.items[i], s.items.value, path + [Element(i)], e)
  {
    var rel := e.path[|path|..];
    match rel[0]
    case Member(_) =>
      BrokenInMember(v, s, rel, e.flaw);
    case Element(i) =>
      BrokenInElement(v, s, rel, e.flaw);
      Below(path, Element(i), e.path);
      assert Explains(v.items[i], s.items.value, path + [Element(i)], e);
  }

  lemma {:induction false} ObjectExact(v: Value, s: Schema, path: seq<Place>, e: Violation)
    requires s.kind == Some("object") && v.Dict?
    ensures e in Validate(v, s, path) <==> Explains(v, s, path, e)
    decreases s, 0
  {
    RequiredExact(v.entries, s.required, path, e);
    PropertyExact(v.entries, s.properties, path, e);
    if i :| 0 <= i < |s.properties| && PropertyExplains(v.entries, s.properties[i], path, e) {
      ObjectExplained(v, s, path, e, i);
    }
    if path < e.path && Explains(v, s, path, e) { ObjectExplains(v, s, path, e); }
    BrokenHere(v, s, e.flaw);
  }

  lemma {:induction false} ArrayExact(v: Value, s: Schema, path: seq<Place>, e: Violation)
    requires s.kind == Some("array") && v.Seq? && v.kind == List && s.items.Some?
    ensures e in Validate(v, s, path) <==> Explains(v, s, path, e)
    decreases s, 0
  {
    ItemExact(v.items, s.items.value, path, e);
    if i :| 0 <= i < |v.items| && Explains(v.items[i], s.items.value, path + [Element(i)], e) {
      ArrayExplained(v, s, path, e, i);
    }
    if path < e.path && Explains(v, s, path, e) { ArrayExplains(v, s, path, e); }
    BrokenHere(v, s, e.flaw);
  }

  /** An error is reported exactly for each flaw at a place of the value that a schema governs. */
  lemma {:induction false} ValidateExact(v: Value, s: Schema, path: seq<Place>, e: Violation)
    ensures e in Validate(v, s, path) <==> Explains(v, s, path, e)
    decreases s, 1
  {
    if s.kind == Some("object") && v.Dict? {
      ObjectExact(v, s, path, e);
    } else if s.kind == Some("array") && v.Seq? && v.kind == List && s.items.Some? {
      ArrayExact(v, s, path, e);
    } else {
      BrokenHere(v, s, e.flaw);
      if e.path == path {
        assert e.path[|path|..] == [];
      } else if path < e.path {
        NothingBelow(v, s, e.path[|path|..], e.flaw);
      }
      assert !Mistyped(v, s) ==> Validate(v, s, path) == [];
    }
  }

  lemma NothingBelow(v: Value, s: Schema, path: seq<Place>, flaw: Flaw)
    requires path != [] && !(s.kind == Some("object") && v.Dict?)
    requires !(s.kind == Some("array") && v.Seq? && v.kind == List && s.items.Some?)
    ensures !BrokenAt(v, s, path, flaw)
  {
    if path[0].Member? { BrokenInMember(v, s, path, flaw); } else { BrokenInElement(v, s, path, flaw); }
  }

  /** No errors if and only if the value conforms. */
  lemma NoErrorsIffConforms(v: Value, s: Schema, path: seq<Place>)
    ensures Validate(v, s, path) == [] <==> Conforms(v, s)
  {
    if Validate(v, s, path) != [] {
      var e := Validate(v, s, path)[0];
      ValidateExact(v, s, path, e);
    }
    if !Conforms(v, s) {
      var rel, there, under, flaw :| Governs(v, s, rel, there, under) && Broken(there, under, flaw);
      var e := Violation(path + rel, flaw);
      assert e.path[|path|..] == rel;
      ValidateExact(v, s, path, e);
    }
  }
}
