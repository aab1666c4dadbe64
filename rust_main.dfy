/** The Rust revision of the translator (`src/main.rs`): struct and
    component extraction, the printing of one interface per declaration,
    and the pre-order walk that threads the set of declared struct names. */
module RustMain {
  import opened SyntaxTree
  import opened TypeMapper
  import opened Interfaces

  // ---------------------------------------------------------------------
  // Struct fields.

  /** `field_names.into_iter().zip(field_types)`: the i-th name with the
      i-th type, truncated to the shorter list. */
  function Zip(names: seq<string>, types: seq<string>): (r: seq<Member>)
    ensures |r| == if |names| <= |types| then |names| else |types|
    ensures forall i :: 0 <= i < |r| ==> r[i] == Member(names[i], types[i])
  {
    if names == [] || types == [] then []
    else [Member(names[0], types[0])] + Zip(names[1..], types[1..])
  }

  /** Fields of one `struct_block`. */
  function BlockFields(block: Node): seq<Member> {
    Zip(FieldTexts(block.children, "name"), FieldTexts(block.children, "type"))
  }

  /** Fields of a struct, read from its first `struct_block` child.
      `children_by_field_name(.., &mut field_cursor)` re-roots the scanning
      cursor at that block, so the scan of the struct's children ends
      there. */
  function StructFields(n: Node): seq<Member> {
    if n.kind != "struct_definition" then []
    else match IndexOfKind(n.children, "struct_block")
      case None => []
      case Some(i) => BlockFields(n.children[i])
  }

  /** `extract_struct_fields`. */
  method ExtractStructFields(n: Node) returns (fields: seq<Member>)
    ensures fields == StructFields(n)
  {
    fields := [];
    if n.kind == "struct_definition" {
      var i := 0;
      while i < |n.children|
        invariant 0 <= i <= |n.children|
        invariant forall j :: 0 <= j < i ==> n.children[j].kind != "struct_block"
      {
        var child := n.children[i];
        if child.kind == "struct_block" {
          var names := CollectFieldTexts(child.children, "name");
          var types := CollectFieldTexts(child.children, "type");
          fields := Zip(names, types);
          // field_cursor now belongs to the block: next_sibling fails
          return;
        }
        i := i + 1;
      }
    }
  }

  /** The struct's fields pair names and types position by position and
      stop at the shorter list; they come from the first `struct_block`. */
  lemma StructFieldsPairing(n: Node, i: nat)
    requires n.kind == "struct_definition"
    requires IndexOfKind(n.children, "struct_block") == Some(i)
    ensures var names := FieldTexts(n.children[i].children, "name");
      var types := FieldTexts(n.children[i].children, "type");
      |StructFields(n)| == (if |names| <= |types| then |names| else |types|)
      && forall k :: 0 <= k < |StructFields(n)| ==> StructFields(n)[k] == Member(names[k], types[k])
  {
  }

  // ---------------------------------------------------------------------
  // Component properties.

  /** The inner loop of `extract_component_properties` over the block's
      children; the `unwrap()` of each field is the precondition. */
  method CollectProperties(cs: seq<Node>) returns (properties: seq<Member>)
    requires forall c :: c in cs ==> PropertyFieldsPresent(c)
    ensures properties == BlockProperties(cs)
  {
    properties := [];
    var j := 0;
    while j < |cs|
      invariant 0 <= j <= |cs|
      invariant properties + BlockProperties(cs[j..]) == BlockProperties(cs)
    {
      assert cs[j..][1..] == cs[j + 1..];
      ghost var head := match PropertyOf(cs[j]) case None => [] case Some(m) => [m];
      AppendAssoc(properties, head, BlockProperties(cs[j + 1..]));
      var c := cs[j];
      assert PropertyFieldsPresent(c);
      if c.kind == "property" {
        var propName := FieldChild(c.children, "name").value.text;
        var propType := FieldChild(c.children, "type").value.text;
        properties := properties + [Member(propName, propType)];
      }
      if c.kind == "property_assignment" {
        var prop := FieldChild(c.children, "property").value.text;
        var propValue := FieldChild(c.children, "value").value.text;
        properties := properties + [Member(prop, propValue)];
      }
      j := j + 1;
    }
  }

  /** `extract_component_properties`: the `property` and
      `property_assignment` children of the component's block, in order. */
  method ExtractComponentProperties(n: Node) returns (properties: seq<Member>)
    requires ComponentReady(n)
    ensures properties == ComponentProperties(n)
  {
    properties := [];
    if n.kind == "component_definition" {
      var i := 0;
      while i < |n.children|
        invariant 0 <= i <= |n.children|
        invariant forall j :: 0 <= j < i ==> !(n.children[j].kind == "block" && |n.children[j].children| > 0)
      {
        var child := n.children[i];
        if child.kind == "block" && |child.children| > 0 {
          assert ScannedBlock(n.children) == Some(i);
          properties := CollectProperties(child.children);
          // the cursor is left on the block's last child: next_sibling fails
          return;
        }
        i := i + 1;
      }
    }
  }

  // ---------------------------------------------------------------------
  // What one declaration prints, and the walk.

  /** Struct name: the first `user_type_identifier` child, else the
      placeholder (`unwrap_or`). */
  function StructName(n: Node): string {
    match ChildTextOfKind(n, "user_type_identifier")
    case None => "UnnamedStruct"
    case Some(t) => t
  }

  function ComponentName(n: Node): string {
    match ChildTextOfKind(n, "user_type_identifier")
    case None => "UnnamedComponent"
    case Some(t) => t
  }

  /** `process_struct`: the name is declared first, then the fields are
      printed (names as written) with types mapped against the grown set. */
  function StructOutput(n: Node, seen: set<string>): Out {
    var name := StructName(n);
    var s := seen + {name};
    Out([Header(name)] + MemberLines(StructFields(n), s) + ["}"], s)
  }

  /** `process_component`: sanitized property names, the set unchanged. */
  function ComponentOutput(n: Node, seen: set<string>): Out {
    Out([Header(ComponentName(n))] + MemberLines(Renamed(ComponentProperties(n)), seen) + ["}"], seen)
  }

  /** The dispatch of `process_node` on one node's kind. */
  function Visit(n: Node, seen: set<string>): Out {
    if n.kind == "struct_definition" then StructOutput(n, seen)
    else if n.kind == "component_definition" then ComponentOutput(n, seen)
    else Out([], seen)
  }

  /** A node and everything under it: the dispatch on the node, then the
      walk of its children (`goto_first_child`, recurse, `goto_parent`). */
  function Subtree(n: Node, seen: set<string>): Out
    decreases n
  {
    var v := Visit(n, seen);
    var c := Walk(n.children, v.seen);
    Out(v.lines + c.lines, c.seen)
  }

  /** `process_node` on a list of siblings: each subtree in turn, threading
      the set of declared names from one to the next. */
  function Walk(ns: seq<Node>, seen: set<string>): Out
    decreases ns
  {
    if ns == [] then Out([], seen)
    else
      var t := Subtree(ns[0], seen);
      var r := Walk(ns[1..], t.seen);
      Out(t.lines + r.lines, r.seen)
  }

  /** Every component of the subtree can have its properties unwrapped. */
  predicate SubtreeReady(n: Node)
    decreases n
  {
    ComponentReady(n) && TreeReady(n.children)
  }

  predicate TreeReady(ns: seq<Node>)
    decreases ns
  {
    forall i :: 0 <= i < |ns| ==> SubtreeReady(ns[i])
  }

  /** Readiness checked subtree by subtree is readiness of every node of
      the forest. */
  lemma {:induction false} TreeReadyEveryNode(ns: seq<Node>)
    ensures TreeReady(ns) <==> forall m :: m in PreOrder(ns) ==> ComponentReady(m)
    decreases ns
  {
    if ns != [] {
      TreeReadyEveryNode(ns[0].children);
      TreeReadyEveryNode(ns[1..]);
      assert PreOrder(ns) == [ns[0]] + PreOrder(ns[0].children) + PreOrder(ns[1..]);
      assert TreeReady(ns) <==> SubtreeReady(ns[0]) && TreeReady(ns[1..]) by {
        if SubtreeReady(ns[0]) && TreeReady(ns[1..]) {
          forall i | 0 <= i < |ns| ensures SubtreeReady(ns[i]) {
            if i > 0 {
              assert ns[i] == ns[1..][i - 1];
            }
          }
        }
        if TreeReady(ns) {
          forall i | 0 <= i < |ns[1..]| ensures SubtreeReady(ns[1..][i]) {
            assert ns[1..][i] == ns[i + 1];
          }
        }
      }
    }
  }

  /** The translator's state: the set of declared names and the lines
      printed to standard output. */
  class Translator {
    var seen: set<string>
    var output: seq<string>

    /** `main`: an empty `HashSet` and the lint header line. */
    constructor ()
      ensures seen == {} && output == [LintHeader]
    {
      seen := {};
      output := [LintHeader];
    }

    method PrintMembers(ms: seq<Member>)
      modifies this
      ensures output == old(output) + MemberLines(ms, seen) && seen == old(seen)
    {
      var k := 0;
      while k < |ms|
        invariant 0 <= k <= |ms| && seen == old(seen)
        invariant output == old(output) + MemberLines(ms[..k], seen)
      {
        assert ms[..k + 1][..k] == ms[..k];
        output := output + [MemberLine(ms[k], seen)];
        k := k + 1;
      }
      assert ms[..k] == ms;
    }

    /** `process_struct`. */
    method ProcessStruct(n: Node)
      modifies this
      ensures output == old(output) + StructOutput(n, old(seen)).lines
      ensures seen == old(seen) + {StructName(n)}
    {
      var found := FindChildByKind(n, "user_type_identifier");
      var name := match found case Some(t) => t case None => "UnnamedStruct";
      seen := seen + {name};
      var fields := ExtractStructFields(n);
      ghost var start := output;
      output := output + [Header(name)];
      PrintMembers(fields);
      output := output + ["}"];
      AppendRegroup(output, start, [Header(name)], MemberLines(fields, seen), ["}"]);
    }

    /** `process_component`: it never adds to the declared names. */
    method ProcessComponent(n: Node)
      requires ComponentReady(n)
      modifies this
      ensures output == old(output) + ComponentOutput(n, old(seen)).lines
      ensures seen == old(seen)
    {
      var found := FindChildByKind(n, "user_type_identifier");
      var name := match found case Some(t) => t case None => "UnnamedComponent";
      var properties := ExtractComponentProperties(n);
      ghost var start := output;
      output := output + [Header(name)];
      PrintMembers(Renamed(properties));
      output := output + ["}"];
      AppendRegroup(output, start, [Header(name)], MemberLines(Renamed(properties), seen), ["}"]);
    }

    /** The `match kind` of `process_node`. */
    method Dispatch(node: Node)
      requires ComponentReady(node)
      modifies this
      ensures output == old(output) + Visit(node, old(seen)).lines
      ensures seen == Visit(node, old(seen)).seen
    {
      if node.kind == "struct_definition" {
        ProcessStruct(node);
      } else if node.kind == "component_definition" {
        ProcessComponent(node);
      }
    }

    /** One iteration of the `process_node` loop: the dispatch on the
        node under the cursor, then its children. */
    method ProcessSubtree(node: Node)
      requires SubtreeReady(node)
      modifies this
      ensures output == old(output) + Subtree(node, old(seen)).lines
      ensures seen == Subtree(node, old(seen)).seen
      decreases node
    {
      ghost var start := output;
      ghost var v := Visit(node, seen);
      Dispatch(node);
      if |node.children| > 0 {
        ProcessNode(node.children);
      } else {
        assert v.lines + [] == v.lines;
      }
      AppendAssoc(start, v.lines, Walk(node.children, v.seen).lines);
    }

    /** `process_node`, called with the cursor on the first of `ns`; the
        top-level call is on the root alone, `ProcessNode([root])`. */
    method ProcessNode(ns: seq<Node>)
      requires TreeReady(ns)
      modifies this
      ensures output == old(output) + Walk(ns, old(seen)).lines
      ensures seen == Walk(ns, old(seen)).seen
      decreases ns
    {
      ghost var total := Walk(ns, seen);
      ghost var start := output;
      assert ns[0..] == ns;
      var i := 0;
      while i < |ns|
        invariant 0 <= i <= |ns|
        invariant start + total.lines == output + Walk(ns[i..], seen).lines
        invariant total.seen == Walk(ns[i..], seen).seen
      {
        ghost var before := output;
        ghost var t := Subtree(ns[i], seen);
        ghost var r := Walk(ns[i + 1..], t.seen);
        WalkStep(ns, i, seen);
        ProcessSubtree(ns[i]);
        AppendAssoc(before, t.lines, r.lines);
        i := i + 1;
      }
    }
  }

  /** One step of the sibling loop: the remaining walk from `ns[i]` is the
      subtree of `ns[i]`, then the later siblings. */
  lemma WalkStep(ns: seq<Node>, i: nat, seen: set<string>)
    requires i < |ns|
    ensures var t := Subtree(ns[i], seen);
      Walk(ns[i..], seen) == Out(t.lines + Walk(ns[i + 1..], t.seen).lines, Walk(ns[i + 1..], t.seen).seen)
  {
    assert ns[i..][0] == ns[i];
    assert ns[i..][1..] == ns[i + 1..];
  }

  // ---------------------------------------------------------------------
  // The walk as a fold over the pre-order listing.

  /** The walk dispatches on each node exactly once, in pre-order: what it
      prints and declares is a fold of `Visit` over `PreOrder`. So blocks
      come out in document order, a node before its descendants. */
  lemma {:induction false} WalkIsPreOrderFold(ns: seq<Node>, seen: set<string>)
    ensures Walk(ns, seen) == FoldWith(Visit, PreOrder(ns), seen)
    decreases ns
  {
    if ns != [] {
      var v := Visit(ns[0], seen);
      var c := Walk(ns[0].children, v.seen);
      var r := Walk(ns[1..], c.seen);
      WalkIsPreOrderFold(ns[0].children, v.seen);
      WalkIsPreOrderFold(ns[1..], c.seen);
      var kids := PreOrder(ns[0].children);
      var rest := PreOrder(ns[1..]);
      AppendAssoc([ns[0]], kids, rest);
      FoldAppend(Visit, [ns[0]], kids + rest, seen);
      FoldAppend(Visit, kids, rest, v.seen);
      assert FoldWith(Visit, [ns[0]], seen) == Out(v.lines, v.seen) by {
        assert [ns[0]][1..] == [];
        assert v.lines + [] == v.lines;
      }
      AppendAssoc(v.lines, c.lines, r.lines);
      assert Walk(ns, seen) == Out(v.lines + c.lines + r.lines, r.seen);
    }
  }

  /** Names of the structs in a flat list of nodes. */
  function DeclaredNames(flat: seq<Node>): set<string> {
    set k | 0 <= k < |flat| && flat[k].kind == "struct_definition" :: StructName(flat[k])
  }

  lemma {:induction false} FoldSeen(flat: seq<Node>, seen: set<string>)
    ensures FoldWith(Visit, flat, seen).seen == seen + DeclaredNames(flat)
  {
    if flat != [] {
      FoldSeen(flat[1..], Visit(flat[0], seen).seen);
      var tail := DeclaredNames(flat[1..]);
      var head := if flat[0].kind == "struct_definition" then {StructName(flat[0])} else {};
      assert DeclaredNames(flat) == head + tail by {
        forall x | x in DeclaredNames(flat) ensures x in head + tail {
          var k :| 0 <= k < |flat| && flat[k].kind == "struct_definition" && StructName(flat[k]) == x;
          if k > 0 {
            assert flat[1..][k - 1] == flat[k];
          }
        }
        forall x | x in tail ensures x in DeclaredNames(flat) {
          var k :| 0 <= k < |flat[1..]| && flat[1..][k].kind == "struct_definition" && StructName(flat[1..][k]) == x;
          assert flat[k + 1] == flat[1..][k];
        }
      }
    }
  }

  /** After a walk the declared names are exactly the old ones plus the
      name of every struct of the forest: the set only grows, and only
      structs add to it. */
  lemma WalkDeclares(ns: seq<Node>, seen: set<string>)
    ensures Walk(ns, seen).seen == seen + DeclaredNames(PreOrder(ns))
  {
    WalkIsPreOrderFold(ns, seen);
    FoldSeen(PreOrder(ns), seen);
  }

  /** No node of the forest is a struct or a component. */
  predicate Silent(ns: seq<Node>)
    decreases ns
  {
    forall i :: 0 <= i < |ns| ==> ns[i].kind != "struct_definition" && ns[i].kind != "component_definition" && Silent(ns[i].children)
  }

  /** A forest with no struct and no component prints nothing and
      declares nothing. */
  lemma {:induction false} WalkSilent(ns: seq<Node>, seen: set<string>)
    requires Silent(ns)
    ensures Walk(ns, seen) == Out([], seen)
    decreases ns
  {
    if ns != [] {
      assert forall i :: 0 <= i < |ns[1..]| ==> ns[1..][i] == ns[i + 1];
      WalkSilent(ns[0].children, seen);
      WalkSilent(ns[1..], seen);
    }
  }

  /** A declaration with nothing printable below it prints its own block,
      then the walk goes on with its siblings from the set it leaves. */
  lemma LeafDeclaration(a: Node, rest: seq<Node>, seen: set<string>)
    requires Silent(a.children)
    ensures var v := Visit(a, seen);
      var r := Walk(rest, v.seen);
      Walk([a] + rest, seen) == Out(v.lines + r.lines, r.seen)
  {
    var v := Visit(a, seen);
    WalkSilent(a.children, v.seen);
    assert ([a] + rest)[0] == a && ([a] + rest)[1..] == rest;
    assert v.lines + [] == v.lines;
  }

  /** Two such declarations side by side print their blocks in file order,
      the second mapped against the set the first leaves. */
  lemma TwoLeafDeclarations(a: Node, b: Node, seen: set<string>)
    requires Silent(a.children) && Silent(b.children)
    ensures var va := Visit(a, seen);
      var vb := Visit(b, va.seen);
      Walk([a, b], seen) == Out(va.lines + vb.lines, vb.seen)
  {
    var va := Visit(a, seen);
    var vb := Visit(b, va.seen);
    LeafDeclaration(b, [], va.seen);
    assert [b] + [] == [b];
    assert Walk([b], va.seen) == Out(vb.lines + [], vb.seen);
    LeafDeclaration(a, [b], seen);
    assert [a] + [b] == [a, b];
  }

  /** A struct sees its own name: a field whose type is the struct itself,
      under any number of bracket layers, resolves to that name. */
  lemma {:induction false} StructSeesItself(n: Node, seen: set<string>, k: nat)
    requires k < |StructFields(n)|
    requires Core(StructFields(n)[k].typeText) == StructName(n)
    requires !IsPrimitive(StructName(n))
    ensures StructOutput(n, seen).lines[k + 1] ==
      "  " + StructFields(n)[k].name + ": " + StructName(n)
      + ArraySuffix(Depth(StructFields(n)[k].typeText)) + ";"
  {
    var s := seen + {StructName(n)};
    var m := StructFields(n)[k];
    MapTypeLayers(m.typeText, s);
    var body := MemberLines(StructFields(n), s);
    var front := [Header(StructName(n))] + body;
    assert StructOutput(n, seen).lines == front + ["}"];
    assert front[k + 1] == body[k] == MemberLine(m, s);
    var suffix := ArraySuffix(Depth(m.typeText));
    assert BaseImage(StructName(n), s) == StructName(n);
    assert MapType(m.typeText, s) == StructName(n) + suffix;
    AppendAssoc("  " + m.name + ": ", StructName(n), suffix);
  }
}
