/** The Slint-to-TypeScript type mapper and the name sanitizer. Both
    revisions of the translator define them with the same rules, so they
    are defined once here and used by both. */
module TypeMapper {

  /** The wildcard TypeScript type an unresolved Slint type degrades to. */
  const Wildcard: string := "any"

  predicate IsPrimitive(t: string) {
    t == "int" || t == "bool" || t == "string"
  }

  /** `t.starts_with("[") && t.ends_with("]")`. */
  predicate IsBracketed(t: string) {
    |t| >= 1 && t[0] == '[' && t[|t| - 1] == ']'
  }

  /** The text between the outer brackets, `t[1..t.len() - 1]`. */
  function Inner(t: string): (r: string)
    requires IsBracketed(t)
    ensures |r| == |t| - 2
  {
    t[1..|t| - 1]
  }

  /** `map_type` / `mapType`: primitives first, then one array layer per
      bracket pair, then names already declared, then the wildcard. */
  function MapType(t: string, seen: set<string>): string
    decreases |t|
  {
    if t == "int" then "number"
    else if t == "bool" then "boolean"
    else if t == "string" then "string"
    else if IsBracketed(t) then MapType(Inner(t), seen) + "[]"
    else if t in seen then t
    else Wildcard
  }

  // ---------------------------------------------------------------------
  // An independent description of MapType: peel every bracket layer, map
  // the core once, and append one "[]" per layer.

  /** Number of bracket layers around `t`. */
  function Depth(t: string): nat
    decreases |t|
  {
    if IsBracketed(t) then 1 + Depth(Inner(t)) else 0
  }

  /** What is left of `t` once every bracket layer is peeled. */
  function Core(t: string): (r: string)
    ensures !IsBracketed(r)
    decreases |t|
  {
    if IsBracketed(t) then Core(Inner(t)) else t
  }

  /** How an unbracketed type name is mapped. */
  function BaseImage(core: string, seen: set<string>): string {
    if core == "int" then "number"
    else if core == "bool" then "boolean"
    else if core == "string" then "string"
    else if core in seen then core
    else Wildcard
  }

  /** `n` copies of the TypeScript array suffix. */
  function ArraySuffix(n: nat): (r: string)
    ensures |r| == 2 * n
  {
    if n == 0 then "" else ArraySuffix(n - 1) + "[]"
  }

  /** A core type resolves when it is a primitive or a declared name. */
  predicate Resolves(core: string, seen: set<string>) {
    IsPrimitive(core) || core in seen
  }

  /** The result of MapType is the image of the core followed by one "[]"
      per bracket layer: `"[[int]]"` gives `"number[][]"`. */
  lemma {:induction false} MapTypeLayers(t: string, seen: set<string>)
    ensures MapType(t, seen) == BaseImage(Core(t), seen) + ArraySuffix(Depth(t))
    decreases |t|
  {
    if IsBracketed(t) {
      MapTypeLayers(Inner(t), seen);
      assert MapType(t, seen) == MapType(Inner(t), seen) + "[]";
    } else {
      assert ArraySuffix(0) == "";
    }
  }

  /** The array law: wrapping a type in brackets appends one "[]". */
  lemma ArrayLaw(t: string, seen: set<string>)
    ensures MapType("[" + t + "]", seen) == MapType(t, seen) + "[]"
  {
    var b := "[" + t + "]";
    assert IsBracketed(b);
    assert Inner(b) == t;
  }

  /** The primitive table wins over the declared names: declaring a struct
      called `int` does not change how `int` maps. */
  lemma PrimitivesIgnoreSeen(seen: set<string>)
    ensures MapType("int", seen) == "number"
    ensures MapType("bool", seen) == "boolean"
    ensures MapType("string", seen) == "string"
  {
  }

  /** An unbracketed, non-primitive name maps to itself exactly when it is
      declared, and otherwise to the wildcard. */
  lemma NamePassthrough(t: string, seen: set<string>)
    requires !IsBracketed(t) && !IsPrimitive(t)
    ensures t in seen ==> MapType(t, seen) == t
    ensures t !in seen ==> MapType(t, seen) == Wildcard
  {
  }

  /** The result is the bare wildcard exactly when there is no bracket layer
      and the core does not resolve (or is itself a declared `any`). */
  lemma {:induction false} WildcardExactly(t: string, seen: set<string>)
    ensures MapType(t, seen) == Wildcard <==>
      Depth(t) == 0 && (!Resolves(t, seen) || t == Wildcard)
  {
    MapTypeLayers(t, seen);
    var r := MapType(t, seen);
    if Depth(t) > 0 {
      var d := Depth(t);
      assert ArraySuffix(d) == ArraySuffix(d - 1) + "[]";
      var s := BaseImage(Core(t), seen) + ArraySuffix(d);
      assert s[|s| - 1] == ']';
      assert Wildcard[|Wildcard| - 1] == 'y';
    } else {
      assert Core(t) == t;
    }
  }

  /** Declaring more names can only turn wildcard cores into names: the
      result either stays the same or was the wildcard with array layers. */
  lemma {:induction false} MoreDeclaredNames(t: string, seen: set<string>, more: set<string>)
    requires seen <= more
    ensures MapType(t, more) == MapType(t, seen)
      || MapType(t, seen) == Wildcard + ArraySuffix(Depth(t))
    ensures Resolves(Core(t), seen) ==> MapType(t, more) == MapType(t, seen)
  {
    MapTypeLayers(t, seen);
    MapTypeLayers(t, more);
  }

  // ---------------------------------------------------------------------
  // Name sanitizer.

  function Sanitize(c: char): char {
    if c == '-' then '_' else c
  }

  /** `map_name` / `mapName`: replace every `-` by `_`
      (`replace("-", "_")` in Rust, `replace(/-/g, "_")` in TypeScript). */
  function MapName(s: string): (r: string)
    ensures |r| == |s|
    ensures forall i :: 0 <= i < |s| ==> r[i] == Sanitize(s[i])
    ensures '-' !in r
  {
    if s == [] then [] else [Sanitize(s[0])] + MapName(s[1..])
  }

  /** A hyphen-free name is its own sanitized form, so sanitizing twice is
      sanitizing once. */
  lemma MapNameIdempotent(s: string)
    ensures '-' !in s ==> MapName(s) == s
    ensures MapName(MapName(s)) == MapName(s)
  {
    var r := MapName(s);
    assert MapName(r) == r by {
      forall i | 0 <= i < |r| ensures MapName(r)[i] == r[i] {
        assert r[i] != '-';
      }
    }
    if '-' !in s {
      forall i | 0 <= i < |s| ensures r[i] == s[i] {
        assert s[i] != '-';
      }
    }
  }

  /** Sanitizing works character by character, so it distributes over
      concatenation. */
  lemma {:induction false} MapNameConcat(a: string, b: string)
    ensures MapName(a + b) == MapName(a) + MapName(b)
  {
    if a != [] {
      assert (a + b)[1..] == a[1..] + b;
      MapNameConcat(a[1..], b);
      assert MapName(a + b) == [Sanitize(a[0])] + MapName(a[1..] + b);
    }
  }

  /** The hyphen between two parts becomes an underscore. */
  lemma MapNameAtHyphen(a: string, b: string)
    ensures MapName(a + "-" + b) == MapName(a) + "_" + MapName(b)
  {
    MapNameConcat(a + "-", b);
    MapNameConcat(a, "-");
    assert MapName("-") == "_";
  }

  function Occurrences(s: string, c: char): nat {
    if s == [] then 0 else (if s[0] == c then 1 else 0) + Occurrences(s[1..], c)
  }

  /** Every hyphen becomes exactly one underscore: the underscores of the
      result are the input's underscores plus its hyphens. */
  lemma {:induction false} MapNameCounts(s: string)
    ensures Occurrences(MapName(s), '_') == Occurrences(s, '_') + Occurrences(s, '-')
    ensures Occurrences(MapName(s), '-') == 0
  {
    if s != [] {
      MapNameCounts(s[1..]);
      assert MapName(s)[1..] == MapName(s[1..]);
    }
  }
}
