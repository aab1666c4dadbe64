/** What both revisions share between the tree and the printed text: the
    raw (name, type) members a declaration yields, how the properties of a
    component are collected from its block, and how an interface block is
    laid out line by line. */
module Interfaces {
  import opened SyntaxTree
  import opened TypeMapper

  /** A raw member: a field, property or property-assignment name together
      with its unmapped type text (or, for an assignment, its value text). */
  datatype Member = Member(name: string, typeText: string)

  /** Output carried through a walk: the lines printed so far and the set
      of declared struct names (`seen_types` / `seenTypes`). */
  datatype Out = Out(lines: seq<string>, seen: set<string>)

  /** Lint-suppression line printed by `main` before the walk. */
  const LintHeader: string := "// deno-lint-ignore-file no-explicit-any"

  /** Closing line of each `run`-bearing component interface (TypeScript). */
  const RunLine: string := "  run: () => Promise<void>;"

  function Header(name: string): string {
    "export interface " + name + " {"
  }

  /** `  name: mapped;` for one member. */
  function MemberLine(m: Member, seen: set<string>): string {
    "  " + m.name + ": " + MapType(m.typeText, seen) + ";"
  }

  /** One line per member, in member order. */
  function MemberLines(ms: seq<Member>, seen: set<string>): (r: seq<string>)
    ensures |r| == |ms|
    ensures forall i :: 0 <= i < |ms| ==> r[i] == MemberLine(ms[i], seen)
  {
    if ms == [] then [] else MemberLines(ms[..|ms| - 1], seen) + [MemberLine(ms[|ms| - 1], seen)]
  }

  /** The members with `map_name` applied to their names. */
  function Renamed(ms: seq<Member>): (r: seq<Member>)
    ensures |r| == |ms|
    ensures forall i :: 0 <= i < |ms| ==> r[i] == Member(MapName(ms[i].name), ms[i].typeText)
  {
    if ms == [] then [] else [Member(MapName(ms[0].name), ms[0].typeText)] + Renamed(ms[1..])
  }

  // ---------------------------------------------------------------------
  // Component properties (both revisions collect them alike).

  predicate IsPropertyKind(kind: string) {
    kind == "property" || kind == "property_assignment"
  }

  /** The member a block child contributes: `(name, type)` for a
      `property`, `(property, value)` for a `property_assignment`. A missing
      field reads as `""`. */
  function PropertyOf(c: Node): Option<Member> {
    if c.kind == "property" then Some(Member(FieldTextOr(c, "name"), FieldTextOr(c, "type")))
    else if c.kind == "property_assignment" then Some(Member(FieldTextOr(c, "property"), FieldTextOr(c, "value")))
    else None
  }

  /** Members of the property-like children of a block, in document order. */
  function BlockProperties(cs: seq<Node>): (r: seq<Member>)
    ensures |r| <= |cs|
  {
    if cs == [] then []
    else (match PropertyOf(cs[0]) case None => [] case Some(m) => [m]) + BlockProperties(cs[1..])
  }

  /** Collecting properties distributes over concatenation, so members come
      out in the order their children appear. */
  lemma {:induction false} BlockPropertiesConcat(a: seq<Node>, b: seq<Node>)
    ensures BlockProperties(a + b) == BlockProperties(a) + BlockProperties(b)
  {
    if a == [] {
      assert a + b == b;
    } else {
      assert (a + b)[1..] == a[1..] + b;
      BlockPropertiesConcat(a[1..], b);
    }
  }

  /** Index of the block the property scan reads: the first `block` child
      that has children. Once the inner loop has run over that block's
      children the cursor is left on its last child, so the outer
      `goto_next_sibling` fails and no later child is looked at; an empty
      block leaves the cursor in place and the scan goes on. */
  function ScannedBlock(cs: seq<Node>): (r: Option<nat>)
    ensures r.Some? ==> r.value < |cs| && cs[r.value].kind == "block" && |cs[r.value].children| > 0
    ensures r.Some? ==> forall j :: 0 <= j < r.value ==> !(cs[j].kind == "block" && |cs[j].children| > 0)
    ensures r.None? <==> forall j :: 0 <= j < |cs| ==> !(cs[j].kind == "block" && |cs[j].children| > 0)
  {
    if cs == [] then None
    else if cs[0].kind == "block" && |cs[0].children| > 0 then Some(0)
    else match ScannedBlock(cs[1..])
      case None => None
      case Some(i) => Some(i + 1)
  }

  /** The children the property scan of a component reads. */
  function ScannedChildren(n: Node): seq<Node> {
    if n.kind != "component_definition" then []
    else match ScannedBlock(n.children)
      case None => []
      case Some(i) => n.children[i].children
  }

  /** Properties of a component, in document order. */
  function ComponentProperties(n: Node): seq<Member> {
    BlockProperties(ScannedChildren(n))
  }

  predicate HasField(c: Node, fieldName: string) {
    FieldChild(c.children, fieldName).Some?
  }

  /** The fields the Rust revision unwraps are present on a scanned child. */
  predicate PropertyFieldsPresent(c: Node) {
    && (c.kind == "property" ==> HasField(c, "name") && HasField(c, "type"))
    && (c.kind == "property_assignment" ==> HasField(c, "property") && HasField(c, "value"))
  }

  /** No child the property scan reads lacks a field the Rust revision
      unwraps. */
  predicate ComponentReady(n: Node) {
    forall c :: c in ScannedChildren(n) ==> PropertyFieldsPresent(c)
  }

  // ---------------------------------------------------------------------
  // A walk seen as a fold over a flat list of nodes.

  /** Apply `visit` to every node of a flat list in order, appending what
      each prints and threading the set of declared names. */
  function FoldWith(visit: (Node, set<string>) -> Out, flat: seq<Node>, seen: set<string>): Out {
    if flat == [] then Out([], seen)
    else
      var v := visit(flat[0], seen);
      var r := FoldWith(visit, flat[1..], v.seen);
      Out(v.lines + r.lines, r.seen)
  }

  /** Folding over a concatenation is folding over the first part, then
      over the second from the set the first part ends with. */
  lemma {:induction false} FoldAppend(visit: (Node, set<string>) -> Out, a: seq<Node>, b: seq<Node>, seen: set<string>)
    ensures FoldWith(visit, a + b, seen).lines == FoldWith(visit, a, seen).lines + FoldWith(visit, b, FoldWith(visit, a, seen).seen).lines
    ensures FoldWith(visit, a + b, seen).seen == FoldWith(visit, b, FoldWith(visit, a, seen).seen).seen
  {
    if a == [] {
      assert a + b == b;
    } else {
      assert (a + b)[1..] == a[1..] + b;
      var v := visit(a[0], seen);
      FoldAppend(visit, a[1..], b, v.seen);
      var r := FoldWith(visit, a[1..], v.seen);
      AppendAssoc(v.lines, r.lines, FoldWith(visit, b, r.seen).lines);
    }
  }
}
