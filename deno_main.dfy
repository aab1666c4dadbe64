/** The TypeScript revision of the translator (`deno/main.ts`): struct
    fields from every `struct_block`, padded rather than truncated;
    callbacks next to properties; components printed only behind an
    `export` marker; and the `run` member closing each component. */
module DenoMain {
  import opened SyntaxTree
  import opened TypeMapper
  import opened Interfaces

  /** The `Callback` record: `returnType` is `null` when the callback
      declares no return type. */
  datatype Callback = Callback(name: string, args: seq<string>, returnType: Option<string>)

  // ---------------------------------------------------------------------
  // Names.

  /** `findChildByKind(node, "user_type_identifier") || fallback`: an
      absent name and an empty one (falsy in JavaScript) both give the
      fallback. */
  function DeclName(n: Node, fallback: string): (r: string)
    ensures r == fallback || (r != "" && ChildTextOfKind(n, "user_type_identifier") == Some(r))
    ensures var found := ChildTextOfKind(n, "user_type_identifier");
      found.Some? && found.value != "" ==> r == found.value
    ensures fallback != "" ==> r != ""
  {
    match ChildTextOfKind(n, "user_type_identifier")
    case Some(t) => if t != "" then t else fallback
    case None => fallback
  }

  function TsStructName(n: Node): string {
    DeclName(n, "UnnamedStruct")
  }

  function TsComponentName(n: Node): string {
    DeclName(n, "UnnamedComponent")
  }

  // ---------------------------------------------------------------------
  // Struct fields.

  /** `fieldNames.map((name, index) => [name, fieldTypes[index] || ""])`:
      one member per name, typed `""` where the types run out. */
  function PadZip(names: seq<string>, types: seq<string>): (r: seq<Member>)
    ensures |r| == |names|
    ensures forall i :: 0 <= i < |r| ==> r[i].name == names[i]
    ensures forall i :: 0 <= i < |r| && i < |types| ==> r[i].typeText == types[i]
    ensures forall i :: |types| <= i < |r| ==> r[i].typeText == ""
  {
    if names == [] then []
    else if types == [] then [Member(names[0], "")] + PadZip(names[1..], [])
    else [Member(names[0], types[0])] + PadZip(names[1..], types[1..])
  }

  /** Fields of one `struct_block`. */
  function TsBlockFields(block: Node): seq<Member> {
    PadZip(FieldTexts(block.children, "name"), FieldTexts(block.children, "type"))
  }

  /** Fields of every `struct_block` among `cs`, block after block. */
  function StructBlocksFields(cs: seq<Node>): seq<Member> {
    if cs == [] then []
    else (if cs[0].kind == "struct_block" then TsBlockFields(cs[0]) else []) + StructBlocksFields(cs[1..])
  }

  function TsStructFields(n: Node): seq<Member> {
    if n.kind != "struct_definition" then [] else StructBlocksFields(n.children)
  }

  /** `extractStructFields`: the loop visits every child of the struct, and
      each `struct_block` appends its padded fields. */
  method ExtractStructFields(n: Node) returns (fields: seq<Member>)
    ensures fields == TsStructFields(n)
  {
    fields := [];
    if n.kind == "struct_definition" {
      var cs := n.children;
      var i := 0;
      assert cs[0..] == cs;
      while i < |cs|
        invariant 0 <= i <= |cs|
        invariant fields + StructBlocksFields(cs[i..]) == StructBlocksFields(cs)
      {
        assert cs[i..][1..] == cs[i + 1..];
        var child := cs[i];
        if child.kind == "struct_block" {
          var fieldNames := CollectFieldTexts(child.children, "name");
          var fieldTypes := CollectFieldTexts(child.children, "type");
          AppendAssoc(fields, TsBlockFields(child), StructBlocksFields(cs[i + 1..]));
          fields := fields + PadZip(fieldNames, fieldTypes);
        } else {
          assert [] + StructBlocksFields(cs[i + 1..]) == StructBlocksFields(cs[i + 1..]);
        }
        i := i + 1;
      }
      assert cs[i..] == [];
    }
  }

  // ---------------------------------------------------------------------
  // Callbacks.

  /** `.filter((arg) => arg !== ",")`. */
  function DropCommas(ts: seq<string>): (r: seq<string>)
    ensures |r| <= |ts|
    ensures forall t :: t in r <==> t in ts && t != ","
  {
    if ts == [] then []
    else (if ts[0] == "," then [] else [ts[0]]) + DropCommas(ts[1..])
  }

  /** Dropping commas distributes over concatenation: the kept argument
      texts keep their order and their repeats, which fixes the `argi`
      numbering. */
  lemma {:induction false} DropCommasConcat(a: seq<string>, b: seq<string>)
    ensures DropCommas(a + b) == DropCommas(a) + DropCommas(b)
  {
    if a == [] {
      assert a + b == b;
    } else {
      assert (a + b)[1..] == a[1..] + b;
      DropCommasConcat(a[1..], b);
    }
  }

  /** The callback a `callback` child declares: a missing name reads as
      `""`, a missing return type as `null`, and the `","` tokens among
      the `arguments` children are dropped. */
  function CallbackOf(c: Node): Callback {
    Callback(
      FieldTextOr(c, "name"),
      DropCommas(FieldTexts(c.children, "arguments")),
      match FieldChild(c.children, "return_type") case None => None case Some(rt) => Some(rt.text))
  }

  /** Callbacks of the `callback` children of a block, in document order. */
  function BlockCallbacks(cs: seq<Node>): (r: seq<Callback>)
    ensures |r| <= |cs|
  {
    if cs == [] then []
    else (if cs[0].kind == "callback" then [CallbackOf(cs[0])] else []) + BlockCallbacks(cs[1..])
  }

  /** Collecting callbacks distributes over concatenation, so they come out
      in the order their children appear. */
  lemma {:induction false} BlockCallbacksConcat(a: seq<Node>, b: seq<Node>)
    ensures BlockCallbacks(a + b) == BlockCallbacks(a) + BlockCallbacks(b)
  {
    if a == [] {
      assert a + b == b;
    } else {
      var head := if a[0].kind == "callback" then [CallbackOf(a[0])] else [];
      assert (a + b)[0] == a[0] && (a + b)[1..] == a[1..] + b;
      assert BlockCallbacks(a + b) == head + BlockCallbacks(a[1..] + b);
      BlockCallbacksConcat(a[1..], b);
      AppendAssoc(head, BlockCallbacks(a[1..]), BlockCallbacks(b));
    }
  }

  function ComponentCallbacks(n: Node): seq<Callback> {
    BlockCallbacks(ScannedChildren(n))
  }

  /** The inner `do .. while` of `extractComponentProperties` over the
      block's children; no field is unwrapped, so nothing is required. */
  method CollectMembers(cs: seq<Node>) returns (properties: seq<Member>, callbacks: seq<Callback>)
    ensures properties == BlockProperties(cs)
    ensures callbacks == BlockCallbacks(cs)
  {
    properties, callbacks := [], [];
    var j := 0;
    assert cs[0..] == cs;
    while j < |cs|
      invariant 0 <= j <= |cs|
      invariant properties + BlockProperties(cs[j..]) == BlockProperties(cs)
      invariant callbacks + BlockCallbacks(cs[j..]) == BlockCallbacks(cs)
    {
      assert cs[j..][1..] == cs[j + 1..];
      var c := cs[j];
      ghost var restProperties := BlockProperties(cs[j + 1..]);
      ghost var restCallbacks := BlockCallbacks(cs[j + 1..]);
      if c.kind == "callback" {
        var callbackName := FieldTextOr(c, "name");
        var callbackReturn := match FieldChild(c.children, "return_type") case None => None case Some(rt) => Some(rt.text);
        var callbackArgs := DropCommas(FieldTexts(c.children, "arguments"));
        AppendAssoc(callbacks, [CallbackOf(c)], restCallbacks);
        callbacks := callbacks + [Callback(callbackName, callbackArgs, callbackReturn)];
        assert BlockProperties(cs[j..]) == restProperties;
      } else if c.kind == "property" {
        AppendAssoc(properties, [PropertyOf(c).value], restProperties);
        properties := properties + [Member(FieldTextOr(c, "name"), FieldTextOr(c, "type"))];
        assert BlockCallbacks(cs[j..]) == restCallbacks;
      } else if c.kind == "property_assignment" {
        AppendAssoc(properties, [PropertyOf(c).value], restProperties);
        properties := properties + [Member(FieldTextOr(c, "property"), FieldTextOr(c, "value"))];
        assert BlockCallbacks(cs[j..]) == restCallbacks;
      } else {
        assert BlockProperties(cs[j..]) == restProperties;
        assert BlockCallbacks(cs[j..]) == restCallbacks;
      }
      j := j + 1;
    }
    assert cs[j..] == [];
  }

  /** `extractComponentProperties`: the properties and callbacks of the
      first block with children, which is where the cursor scan ends. */
  method ExtractComponentProperties(n: Node) returns (properties: seq<Member>, callbacks: seq<Callback>)
    ensures properties == ComponentProperties(n)
    ensures callbacks == ComponentCallbacks(n)
  {
    properties, callbacks := [], [];
    if n.kind == "component_definition" {
      var i := 0;
      while i < |n.children|
        invariant 0 <= i <= |n.children|
        invariant forall j :: 0 <= j < i ==> !(n.children[j].kind == "block" && |n.children[j].children| > 0)
      {
        var child := n.children[i];
        if child.kind == "block" && |child.children| > 0 {
          assert ScannedBlock(n.children) == Some(i);
          properties, callbacks := CollectMembers(child.children);
          return;
        }
        i := i + 1;
      }
    }
  }

  // ---------------------------------------------------------------------
  // Rendering a callback.

  function DigitChar(d: nat): (r: char)
    requires d < 10
    ensures '0' <= r <= '9'
  {
    ('0' as int + d) as char
  }

  /** Decimal rendering of an index, as a template literal prints it. */
  function Decimal(n: nat): (r: string)
    ensures |r| >= 1
    ensures forall i :: 0 <= i < |r| ==> '0' <= r[i] <= '9'
  {
    if n < 10 then [DigitChar(n)] else Decimal(n / 10) + [DigitChar(n % 10)]
  }

  /** The number a string of decimal digits denotes. */
  function DecimalValue(s: string): nat
    requires forall i :: 0 <= i < |s| ==> '0' <= s[i] <= '9'
  {
    if s == [] then 0 else 10 * DecimalValue(s[..|s| - 1]) + (s[|s| - 1] as int - '0' as int)
  }

  /** The rendering of an index reads back as that index, and has no
      leading zero. */
  lemma {:induction false} DecimalRoundTrip(n: nat)
    ensures DecimalValue(Decimal(n)) == n
    ensures Decimal(n)[0] == '0' ==> n == 0
  {
    if n >= 10 {
      DecimalRoundTrip(n / 10);
      var s := Decimal(n);
      assert s[..|s| - 1] == Decimal(n / 10);
    }
  }

  /** `arg${index}: ${mapType(arg, seenTypes)}`. */
  function ArgText(index: nat, arg: string, seen: set<string>): string {
    "arg" + Decimal(index) + ": " + MapType(arg, seen)
  }

  /** The mapped arguments, numbered from `first`. */
  function ArgTexts(args: seq<string>, first: nat, seen: set<string>): (r: seq<string>)
    ensures |r| == |args|
    ensures forall i :: 0 <= i < |args| ==> r[i] == ArgText(first + i, args[i], seen)
  {
    if args == [] then [] else [ArgText(first, args[0], seen)] + ArgTexts(args[1..], first + 1, seen)
  }

  /** `Array.prototype.join`. */
  function Join(parts: seq<string>, sep: string): string {
    if parts == [] then ""
    else if |parts| == 1 then parts[0]
    else parts[0] + sep + Join(parts[1..], sep)
  }

  /** Joining a concatenation puts one separator between the two joins. */
  lemma {:induction false} JoinAppend(a: seq<string>, b: seq<string>, sep: string)
    requires a != [] && b != []
    ensures Join(a + b, sep) == Join(a, sep) + sep + Join(b, sep)
  {
    if |a| == 1 {
      assert (a + b)[1..] == b;
    } else {
      assert (a + b)[1..] == a[1..] + b;
      JoinAppend(a[1..], b, sep);
      AppendAssoc(a[0] + sep, Join(a[1..], sep), sep + Join(b, sep));
      AppendAssoc(a[0] + sep + Join(a[1..], sep), sep, Join(b, sep));
    }
  }

  /** ` => R` for a non-empty return type, ` => void` otherwise (both
      `null` and `""` are falsy). */
  function ReturnText(returnType: Option<string>, seen: set<string>): string {
    match returnType
    case Some(t) => if t != "" then " => " + MapType(t, seen) else " => void"
    case None => " => void"
  }

  /** `  name: (arg0: T0, ..., argN-1: TN-1) => R;`. */
  function CallbackLine(cb: Callback, seen: set<string>): string {
    "  " + MapName(cb.name) + ": (" + Join(ArgTexts(cb.args, 0, seen), ", ") + ")" + ReturnText(cb.returnType, seen) + ";"
  }

  /** A callback with no arguments and no (or an empty) return type
      renders as `  name: () => void;`. */
  lemma VoidCallbackLine(cb: Callback, seen: set<string>)
    requires cb.args == [] && (cb.returnType == None || cb.returnType == Some(""))
    ensures CallbackLine(cb, seen) == "  " + MapName(cb.name) + ": () => void;"
  {
    assert ArgTexts(cb.args, 0, seen) == [];
    assert ReturnText(cb.returnType, seen) == " => void";
  }

  /** Numbering restarts nowhere: the last argument's text follows the
      texts of the others. */
  lemma ArgTextsSnoc(args: seq<string>, seen: set<string>)
    requires args != []
    ensures ArgTexts(args, 0, seen)
      == ArgTexts(args[..|args| - 1], 0, seen) + [ArgText(|args| - 1, args[|args| - 1], seen)]
  {
    var n := |args|;
    var front := ArgTexts(args[..n - 1], 0, seen);
    var whole := front + [ArgText(n - 1, args[n - 1], seen)];
    var ts := ArgTexts(args, 0, seen);
    assert |ts| == |whole|;
    forall i | 0 <= i < n
      ensures ts[i] == whole[i]
    {
      assert ts[i] == ArgText(i, args[i], seen);
      if i < n - 1 {
        assert args[..n - 1][i] == args[i];
        assert whole[i] == front[i] == ArgText(i, args[..n - 1][i], seen);
      }
    }
    assert ts == whole;
  }

  /** The argument list holds the `i`-th argument as `argi: Ti`, in
      order, separated by `, `: the last argument follows all the others. */
  lemma ArgumentList(args: seq<string>, seen: set<string>)
    requires args != []
    ensures var n := |args|;
      Join(ArgTexts(args, 0, seen), ", ")
        == (if n == 1 then "" else Join(ArgTexts(args[..n - 1], 0, seen), ", ") + ", ")
           + ArgText(n - 1, args[n - 1], seen)
  {
    var n := |args|;
    var ts := ArgTexts(args, 0, seen);
    var last := ArgText(n - 1, args[n - 1], seen);
    if n > 1 {
      var front := ArgTexts(args[..n - 1], 0, seen);
      ArgTextsSnoc(args, seen);
      JoinAppend(front, [last], ", ");
      assert Join([last], ", ") == last;
    } else {
      assert ts == [last];
      assert "" + last == last;
    }
  }

  function CallbackLines(cbs: seq<Callback>, seen: set<string>): (r: seq<string>)
    ensures |r| == |cbs|
    ensures forall i :: 0 <= i < |cbs| ==> r[i] == CallbackLine(cbs[i], seen)
  {
    if cbs == [] then [] else CallbackLines(cbs[..|cbs| - 1], seen) + [CallbackLine(cbs[|cbs| - 1], seen)]
  }

  // ---------------------------------------------------------------------
  // What one declaration prints, and the walk.

  /** `processStruct`: the name is declared first, then the fields are
      printed with sanitized names and types mapped against the grown set. */
  function TsStructOutput(n: Node, seen: set<string>): Out {
    var name := TsStructName(n);
    var s := seen + {name};
    Out([Header(name)] + MemberLines(Renamed(TsStructFields(n)), s) + ["}"], s)
  }

  /** `processComponent`: properties, then callbacks, then `run`. */
  function TsComponentOutput(n: Node, seen: set<string>): Out {
    Out([Header(TsComponentName(n))]
      + MemberLines(Renamed(ComponentProperties(n)), seen)
      + CallbackLines(ComponentCallbacks(n), seen)
      + [RunLine, "}"], seen)
  }

  /** The `switch (kind)` on a node the cursor rests on: only a struct
      prints; a component prints only when reached through `export`. */
  function TsVisit(n: Node, seen: set<string>): Out {
    if n.kind == "struct_definition" then TsStructOutput(n, seen) else Out([], seen)
  }

  /** An `export` followed by a `component_definition`. */
  predicate ExportsComponent(ns: seq<Node>) {
    |ns| >= 2 && ns[0].kind == "export" && ns[1].kind == "component_definition"
  }

  /** A node and everything under it. */
  function TsSubtree(n: Node, seen: set<string>): Out
    decreases n
  {
    var v := TsVisit(n, seen);
    var c := TsWalk(n.children, v.seen);
    Out(v.lines + c.lines, c.seen)
  }

  /** An exported component and everything under it: the cursor has moved
      from the `export` onto the component, so the children walked are
      the component's. */
  function TsExported(n: Node, seen: set<string>): Out
    decreases n
  {
    var v := TsComponentOutput(n, seen);
    var c := TsWalk(n.children, v.seen);
    Out(v.lines + c.lines, c.seen)
  }

  /** `processNode` on a list of siblings. */
  function TsWalk(ns: seq<Node>, seen: set<string>): Out
    decreases ns
  {
    if ns == [] then Out([], seen)
    else if ExportsComponent(ns) then
      var t := TsExported(ns[1], seen);
      var r := TsWalk(ns[2..], t.seen);
      Out(t.lines + r.lines, r.seen)
    else
      var t := TsSubtree(ns[0], seen);
      var r := TsWalk(ns[1..], t.seen);
      Out(t.lines + r.lines, r.seen)
  }

  /** The translator's state: the set of declared names (`seenTypes`) and
      the lines written by `console.log`. */
  class TsTranslator {
    var seen: set<string>
    var output: seq<string>

    /** `main`: an empty `Set` and the lint header line. */
    constructor ()
      ensures seen == {} && output == [LintHeader]
    {
      seen := {};
      output := [LintHeader];
    }

    /** The `for (const [name, type] of ..)` loops: sanitized name, type
        mapped against the current set. */
    method PrintRenamed(ms: seq<Member>)
      modifies this
      ensures output == old(output) + MemberLines(Renamed(ms), seen) && seen == old(seen)
    {
      ghost var renamed := Renamed(ms);
      var k := 0;
      assert renamed[..0] == [];
      while k < |ms|
        invariant 0 <= k <= |ms| && seen == old(seen)
        invariant output == old(output) + MemberLines(renamed[..k], seen)
      {
        var line := "  " + MapName(ms[k].name) + ": " + MapType(ms[k].typeText, seen) + ";";
        assert renamed[..k + 1][..k] == renamed[..k];
        assert renamed[k] == Member(MapName(ms[k].name), ms[k].typeText);
        assert line == MemberLine(renamed[k], seen);
        assert MemberLines(renamed[..k + 1], seen) == MemberLines(renamed[..k], seen) + [line];
        output := output + [line];
        k := k + 1;
      }
      assert renamed[..k] == renamed;
    }

    /** The `for (const callback of callbacks)` loop. */
    method PrintCallbacks(cbs: seq<Callback>)
      modifies this
      ensures output == old(output) + CallbackLines(cbs, seen) && seen == old(seen)
    {
      var k := 0;
      while k < |cbs|
        invariant 0 <= k <= |cbs| && seen == old(seen)
        invariant output == old(output) + CallbackLines(cbs[..k], seen)
      {
        assert cbs[..k + 1][..k] == cbs[..k];
        var callback := cbs[k];
        var args := Join(ArgTexts(callback.args, 0, seen), ", ");
        var returnType := ReturnText(callback.returnType, seen);
        output := output + ["  " + MapName(callback.name) + ": (" + args + ")" + returnType + ";"];
        k := k + 1;
      }
      assert cbs[..k] == cbs;
    }

    /** `processStruct`. */
    method ProcessStruct(n: Node)
      modifies this
      ensures output == old(output) + TsStructOutput(n, old(seen)).lines
      ensures seen == old(seen) + {TsStructName(n)}
    {
      var found := FindChildByKind(n, "user_type_identifier");
      var structName := match found case Some(t) => (if t != "" then t else "UnnamedStruct") case None => "UnnamedStruct";
      seen := seen + {structName};
      var fields := ExtractStructFields(n);
      ghost var start := output;
      output := output + [Header(structName)];
      PrintRenamed(fields);
      output := output + ["}"];
      AppendRegroup(output, start, [Header(structName)], MemberLines(Renamed(fields), seen), ["}"]);
    }

    /** `processComponent`: it never adds to the declared names. */
    method ProcessComponent(n: Node)
      modifies this
      ensures output == old(output) + TsComponentOutput(n, old(seen)).lines
      ensures seen == old(seen)
    {
      var found := FindChildByKind(n, "user_type_identifier");
      var componentName := match found case Some(t) => (if t != "" then t else "UnnamedComponent") case None => "UnnamedComponent";
      var properties, callbacks := ExtractComponentProperties(n);
      ghost var start := output;
      output := output + [Header(componentName)];
      PrintRenamed(properties);
      PrintCallbacks(callbacks);
      ghost var front := [Header(componentName)] + MemberLines(Renamed(properties), seen) + CallbackLines(callbacks, seen);
      AppendRegroup(output, start, [Header(componentName)], MemberLines(Renamed(properties), seen), CallbackLines(callbacks, seen));
      output := output + [RunLine];
      output := output + ["}"];
      AppendAssoc(start + front, [RunLine], ["}"]);
      assert [RunLine] + ["}"] == [RunLine, "}"];
      AppendAssoc(start, front, [RunLine, "}"]);
    }

    /** A node the `switch` does not divert: a struct is processed, any
        other kind prints nothing; then its children are walked. */
    method ProcessSubtree(node: Node)
      modifies this
      ensures output == old(output) + TsSubtree(node, old(seen)).lines
      ensures seen == TsSubtree(node, old(seen)).seen
      decreases node
    {
      ghost var start := output;
      ghost var v := TsVisit(node, seen);
      if node.kind == "struct_definition" {
        ProcessStruct(node);
      } else {
        assert start + [] == start;
      }
      if |node.children| > 0 {
        ProcessNode(node.children);
      } else {
        assert v.lines + [] == v.lines;
      }
      AppendAssoc(start, v.lines, TsWalk(node.children, v.seen).lines);
    }

    /** The `export` case once the cursor has moved onto the component:
        the component is processed, then its children are walked. */
    method ProcessExported(node: Node)
      modifies this
      ensures output == old(output) + TsExported(node, old(seen)).lines
      ensures seen == TsExported(node, old(seen)).seen
      decreases node
    {
      ghost var start := output;
      ghost var v := TsComponentOutput(node, seen);
      ProcessComponent(node);
      if |node.children| > 0 {
        ProcessNode(node.children);
      } else {
        assert v.lines + [] == v.lines;
      }
      AppendAssoc(start, v.lines, TsWalk(node.children, v.seen).lines);
    }

    /** `processNode`, called with the cursor on the first of `ns`: an
        `export` whose next sibling is a component moves the cursor onto
        that sibling, so the loop steps over two siblings at once. */
    method ProcessNode(ns: seq<Node>)
      modifies this
      ensures output == old(output) + TsWalk(ns, old(seen)).lines
      ensures seen == TsWalk(ns, old(seen)).seen
      decreases ns
    {
      ghost var total := TsWalk(ns, seen);
      ghost var start := output;
      assert ns[0..] == ns;
      var i := 0;
      while i < |ns|
        invariant 0 <= i <= |ns|
        invariant start + total.lines == output + TsWalk(ns[i..], seen).lines
        invariant total.seen == TsWalk(ns[i..], seen).seen
      {
        ghost var before := output;
        TsWalkStep(ns, i, seen);
        if ns[i].kind == "export" && i + 1 < |ns| && ns[i + 1].kind == "component_definition" {
          ghost var t := TsExported(ns[i + 1], seen);
          ProcessExported(ns[i + 1]);
          AppendAssoc(before, t.lines, TsWalk(ns[i + 2..], t.seen).lines);
          i := i + 2;
        } else {
          ghost var t := TsSubtree(ns[i], seen);
          ProcessSubtree(ns[i]);
          AppendAssoc(before, t.lines, TsWalk(ns[i + 1..], t.seen).lines);
          i := i + 1;
        }
      }
    }
  }

  /** One step of the sibling loop, at an exported component or not. */
  lemma TsWalkStep(ns: seq<Node>, i: nat, seen: set<string>)
    requires i < |ns|
    ensures ns[i].kind == "export" && i + 1 < |ns| && ns[i + 1].kind == "component_definition" ==>
      var t := TsExported(ns[i + 1], seen);
      TsWalk(ns[i..], seen) == Out(t.lines + TsWalk(ns[i + 2..], t.seen).lines, TsWalk(ns[i + 2..], t.seen).seen)
    ensures !(ns[i].kind == "export" && i + 1 < |ns| && ns[i + 1].kind == "component_definition") ==>
      var t := TsSubtree(ns[i], seen);
      TsWalk(ns[i..], seen) == Out(t.lines + TsWalk(ns[i + 1..], t.seen).lines, TsWalk(ns[i + 1..], t.seen).seen)
  {
    assert ns[i..][0] == ns[i];
    assert ns[i..][1..] == ns[i + 1..];
    if i + 1 < |ns| {
      assert ns[i..][1] == ns[i + 1];
      assert ns[i..][2..] == ns[i + 2..];
    }
  }

  // ---------------------------------------------------------------------
  // Properties of the TypeScript revision.

  /** Entries from every `struct_block` are appended, in block order. */
  lemma {:induction false} StructBlocksFieldsConcat(a: seq<Node>, b: seq<Node>)
    ensures StructBlocksFields(a + b) == StructBlocksFields(a) + StructBlocksFields(b)
  {
    if a == [] {
      assert a + b == b;
    } else {
      assert (a + b)[1..] == a[1..] + b;
      StructBlocksFieldsConcat(a[1..], b);
      var head := if a[0].kind == "struct_block" then TsBlockFields(a[0]) else [];
      AppendAssoc(head, StructBlocksFields(a[1..]), StructBlocksFields(b));
    }
  }

  /** A struct with a single `struct_block` has exactly one field per
      `name` child of the block, however many `type` children there are. */
  lemma OneFieldPerName(n: Node, i: nat)
    requires n.kind == "struct_definition" && i < |n.children| && n.children[i].kind == "struct_block"
    requires forall j :: 0 <= j < |n.children| && j != i ==> n.children[j].kind != "struct_block"
    ensures TsStructFields(n) == TsBlockFields(n.children[i])
    ensures |TsStructFields(n)| == |FieldTexts(n.children[i].children, "name")|
  {
    var cs := n.children;
    assert cs == cs[..i] + [cs[i]] + cs[i + 1..];
    StructBlocksFieldsConcat(cs[..i] + [cs[i]], cs[i + 1..]);
    StructBlocksFieldsConcat(cs[..i], [cs[i]]);
    NoStructBlock(cs[..i]);
    NoStructBlock(cs[i + 1..]);
    assert [cs[i]][1..] == [];
    assert StructBlocksFields([cs[i]]) == TsBlockFields(cs[i]) + [];
  }

  lemma {:induction false} NoStructBlock(cs: seq<Node>)
    requires forall j :: 0 <= j < |cs| ==> cs[j].kind != "struct_block"
    ensures StructBlocksFields(cs) == []
  {
    if cs != [] {
      assert forall j :: 0 <= j < |cs[1..]| ==> cs[1..][j] == cs[j + 1];
      NoStructBlock(cs[1..]);
    }
  }

  /** A field whose type the struct block does not supply is padded with
      `""`, and since no declared name is empty it prints as `any`. */
  lemma PaddedFieldIsAny(n: Node, seen: set<string>, k: nat)
    requires "" !in seen
    requires k < |TsStructFields(n)| && TsStructFields(n)[k].typeText == ""
    ensures TsStructOutput(n, seen).lines[k + 1] == "  " + MapName(TsStructFields(n)[k].name) + ": " + Wildcard + ";"
  {
    var s := seen + {TsStructName(n)};
    assert "" !in s;
    var body := MemberLines(Renamed(TsStructFields(n)), s);
    var front := [Header(TsStructName(n))] + body;
    assert TsStructOutput(n, seen).lines == front + ["}"];
    assert front[k + 1] == body[k];
  }

  /** A `component_definition` the walk reaches without an `export` in
      front of it prints nothing of its own: only its subtree is walked. */
  lemma BareComponentSilent(n: Node, seen: set<string>)
    requires n.kind == "component_definition"
    ensures TsSubtree(n, seen) == TsWalk(n.children, seen)
  {
    assert [] + TsWalk(n.children, seen).lines == TsWalk(n.children, seen).lines;
  }

  /** The walk only adds to the declared names, and never adds the empty
      name (every name falls back to a non-empty placeholder), so a missing
      type can never resolve to a declared name. */
  lemma {:induction false} TsWalkSeen(ns: seq<Node>, seen: set<string>)
    ensures seen <= TsWalk(ns, seen).seen
    ensures "" !in seen ==> "" !in TsWalk(ns, seen).seen
    decreases ns
  {
    if ns != [] {
      if ExportsComponent(ns) {
        var v := TsComponentOutput(ns[1], seen);
        TsWalkSeen(ns[1].children, v.seen);
        TsWalkSeen(ns[2..], TsExported(ns[1], seen).seen);
      } else {
        var v := TsVisit(ns[0], seen);
        assert "" != TsStructName(ns[0]);
        TsWalkSeen(ns[0].children, v.seen);
        TsWalkSeen(ns[1..], TsSubtree(ns[0], seen).seen);
      }
    }
  }

  /** No node of the forest is a struct or an `export` marker. */
  predicate Quiet(ns: seq<Node>)
    decreases ns
  {
    forall i :: 0 <= i < |ns| ==> ns[i].kind != "struct_definition" && ns[i].kind != "export" && Quiet(ns[i].children)
  }

  /** A forest with no struct and no `export` prints nothing and declares
      nothing. */
  lemma {:induction false} TsWalkQuiet(ns: seq<Node>, seen: set<string>)
    requires Quiet(ns)
    ensures TsWalk(ns, seen) == Out([], seen)
    decreases ns
  {
    if ns != [] {
      assert forall i :: 0 <= i < |ns[1..]| ==> ns[1..][i] == ns[i + 1];
      TsWalkQuiet(ns[0].children, seen);
      TsWalkQuiet(ns[1..], seen);
    }
  }

  /** Without any `export` node the walk is a fold of `TsVisit` over the
      pre-order listing: structs print in document order, components do
      not print at all. */
  lemma {:induction false} TsWalkWithoutExports(ns: seq<Node>, seen: set<string>)
    requires forall m :: m in PreOrder(ns) ==> m.kind != "export"
    ensures TsWalk(ns, seen) == FoldWith(TsVisit, PreOrder(ns), seen)
    decreases ns
  {
    if ns != [] {
      var kids := PreOrder(ns[0].children);
      var rest := PreOrder(ns[1..]);
      assert PreOrder(ns) == [ns[0]] + kids + rest;
      assert ns[0] in PreOrder(ns);
      assert !ExportsComponent(ns);
      var v := TsVisit(ns[0], seen);
      var c := TsWalk(ns[0].children, v.seen);
      var r := TsWalk(ns[1..], c.seen);
      TsWalkWithoutExports(ns[0].children, v.seen);
      TsWalkWithoutExports(ns[1..], c.seen);
      AppendAssoc([ns[0]], kids, rest);
      FoldAppend(TsVisit, [ns[0]], kids + rest, seen);
      FoldAppend(TsVisit, kids, rest, v.seen);
      assert FoldWith(TsVisit, [ns[0]], seen) == Out(v.lines, v.seen) by {
        assert [ns[0]][1..] == [];
        assert v.lines + [] == v.lines;
      }
      AppendAssoc(v.lines, c.lines, r.lines);
      assert TsWalk(ns, seen) == Out(v.lines + c.lines + r.lines, r.seen);
    }
  }

  /** A component interface opens with its header, lists every property
      in order, has three more lines than members and callbacks, and ends
      with the `run` member and the closing brace. */
  lemma TsComponentLayout(n: Node, seen: set<string>)
    ensures var lines := TsComponentOutput(n, seen).lines;
      var ps := Renamed(ComponentProperties(n));
      && |lines| == |ps| + |ComponentCallbacks(n)| + 3
      && lines[0] == Header(TsComponentName(n))
      && (forall i :: 0 <= i < |ps| ==> lines[1 + i] == MemberLine(ps[i], seen))
      && lines[|lines| - 2] == RunLine
      && lines[|lines| - 1] == "}"
  {
    var ps := Renamed(ComponentProperties(n));
    var xs := MemberLines(ps, seen);
    FramedLayout(Header(TsComponentName(n)), xs, CallbackLines(ComponentCallbacks(n), seen), RunLine, "}");
  }

  /** Between the properties and the `run` member come exactly the
      callback lines, so (by the contract of `CallbackLines`) every callback
      is printed, in order. */
  lemma TsComponentCallbacks(n: Node, seen: set<string>)
    ensures var lines := TsComponentOutput(n, seen).lines;
      var np := |ComponentProperties(n)|;
      && |lines| == np + |ComponentCallbacks(n)| + 3
      && lines[1 + np..|lines| - 2] == CallbackLines(ComponentCallbacks(n), seen)
  {
    var xs := MemberLines(Renamed(ComponentProperties(n)), seen);
    var ys := CallbackLines(ComponentCallbacks(n), seen);
    MiddleOfFrame(Header(TsComponentName(n)), xs, ys, RunLine, "}");
  }

  /** The `ys` part of `[first] + xs + ys + [penult, last]`. */
  lemma MiddleOfFrame<T>(first: T, xs: seq<T>, ys: seq<T>, penult: T, last: T)
    ensures var lines := [first] + xs + ys + [penult, last];
      |lines| == |xs| + |ys| + 3 && lines[1 + |xs|..|lines| - 2] == ys
  {
    var lines := [first] + xs + ys + [penult, last];
    assert forall k :: 0 <= k < |ys| ==> lines[1 + |xs|..|lines| - 2][k] == ys[k];
  }

  /** Where each part lands in `[first] + xs + ys + [penult, last]`. */
  lemma FramedLayout<T>(first: T, xs: seq<T>, ys: seq<T>, penult: T, last: T)
    ensures var lines := [first] + xs + ys + [penult, last];
      && |lines| == |xs| + |ys| + 3
      && lines[0] == first
      && (forall i :: 0 <= i < |xs| ==> lines[1 + i] == xs[i])
      && (forall j :: 0 <= j < |ys| ==> lines[1 + |xs| + j] == ys[j])
      && lines[|lines| - 2] == penult
      && lines[|lines| - 1] == last
  {
  }

  // ---------------------------------------------------------------------
  // The walk as a fold over the steps it takes, `export` included.

  /** One stop of the cursor that may print: a node the `switch` looks at
      in place, or a component reached from the `export` before it. */
  datatype Step = Plain(node: Node) | Exported(node: Node)

  /** The stops of `processNode` in the order the cursor makes them. An
      `export` followed by a component is one stop on the component, whose
      children come next; the `export`'s own children are never visited. */
  function TsListing(ns: seq<Node>): (r: seq<Step>)
    ensures forall k :: 0 <= k < |r| && r[k].Exported? ==> r[k].node.kind == "component_definition"
    decreases ns
  {
    if ns == [] then []
    else if ExportsComponent(ns) then [Exported(ns[1])] + TsListing(ns[1].children) + TsListing(ns[2..])
    else [Plain(ns[0])] + TsListing(ns[0].children) + TsListing(ns[1..])
  }

  /** What one stop prints: an exported component its interface, any
      other node what the `switch` prints for it. */
  function StepOutput(st: Step, seen: set<string>): Out {
    match st
    case Plain(n) => TsVisit(n, seen)
    case Exported(n) => TsComponentOutput(n, seen)
  }

  function FoldSteps(steps: seq<Step>, seen: set<string>): Out {
    if steps == [] then Out([], seen)
    else
      var v := StepOutput(steps[0], seen);
      var r := FoldSteps(steps[1..], v.seen);
      Out(v.lines + r.lines, r.seen)
  }

  lemma {:induction false} FoldStepsAppend(a: seq<Step>, b: seq<Step>, seen: set<string>)
    ensures FoldSteps(a + b, seen).lines == FoldSteps(a, seen).lines + FoldSteps(b, FoldSteps(a, seen).seen).lines
    ensures FoldSteps(a + b, seen).seen == FoldSteps(b, FoldSteps(a, seen).seen).seen
  {
    if a == [] {
      assert a + b == b;
    } else {
      assert (a + b)[1..] == a[1..] + b;
      var v := StepOutput(a[0], seen);
      FoldStepsAppend(a[1..], b, v.seen);
      var r := FoldSteps(a[1..], v.seen);
      AppendAssoc(v.lines, r.lines, FoldSteps(b, r.seen).lines);
    }
  }

  lemma OneStep(st: Step, seen: set<string>)
    ensures FoldSteps([st], seen) == StepOutput(st, seen)
  {
    assert [st][1..] == [];
    assert StepOutput(st, seen).lines + [] == StepOutput(st, seen).lines;
  }

  /** The walk, `export` nodes included, prints and declares what folding
      over its stops does: every exported component prints once, at the
      place of its `export`, between the structs before and after it. */
  lemma {:induction false} TsWalkIsListingFold(ns: seq<Node>, seen: set<string>)
    ensures TsWalk(ns, seen) == FoldSteps(TsListing(ns), seen)
    decreases ns
  {
    if ns != [] {
      var head: Step;
      var kids: seq<Node>;
      var later: seq<Node>;
      if ExportsComponent(ns) {
        head, kids, later := Exported(ns[1]), ns[1].children, ns[2..];
      } else {
        head, kids, later := Plain(ns[0]), ns[0].children, ns[1..];
      }
      var v := StepOutput(head, seen);
      var c := TsWalk(kids, v.seen);
      var r := TsWalk(later, c.seen);
      TsWalkIsListingFold(kids, v.seen);
      TsWalkIsListingFold(later, c.seen);
      var ks := TsListing(kids);
      var rs := TsListing(later);
      assert TsListing(ns) == [head] + ks + rs;
      AppendAssoc([head], ks, rs);
      FoldStepsAppend([head], ks + rs, seen);
      FoldStepsAppend(ks, rs, v.seen);
      OneStep(head, seen);
      AppendAssoc(v.lines, c.lines, r.lines);
      assert TsWalk(ns, seen) == Out(v.lines + c.lines + r.lines, r.seen);
    }
  }

  /** Names of the structs among a list of stops. */
  function ListedNames(steps: seq<Step>): set<string> {
    set k | 0 <= k < |steps| && steps[k].Plain? && steps[k].node.kind == "struct_definition" :: TsStructName(steps[k].node)
  }

  /** The struct name a stop contributes, if any. */
  function StepNames(st: Step): set<string> {
    if st.Plain? && st.node.kind == "struct_definition" then {TsStructName(st.node)} else {}
  }

  lemma ListedNamesCons(steps: seq<Step>)
    requires steps != []
    ensures ListedNames(steps) == StepNames(steps[0]) + ListedNames(steps[1..])
  {
    var tail := ListedNames(steps[1..]);
    forall x | x in ListedNames(steps) ensures x in StepNames(steps[0]) + tail {
      var k :| 0 <= k < |steps| && steps[k].Plain? && steps[k].node.kind == "struct_definition" && TsStructName(steps[k].node) == x;
      if k > 0 {
        assert steps[1..][k - 1] == steps[k];
      }
    }
    forall x | x in tail ensures x in ListedNames(steps) {
      var k :| 0 <= k < |steps[1..]| && steps[1..][k].Plain? && steps[1..][k].node.kind == "struct_definition" && TsStructName(steps[1..][k].node) == x;
      assert steps[k + 1] == steps[1..][k];
    }
  }

  lemma {:induction false} FoldStepsSeen(steps: seq<Step>, seen: set<string>)
    ensures FoldSteps(steps, seen).seen == seen + ListedNames(steps)
  {
    if steps != [] {
      var v := StepOutput(steps[0], seen);
      assert v.seen == seen + StepNames(steps[0]);
      FoldStepsSeen(steps[1..], v.seen);
      ListedNamesCons(steps);
    }
  }

  /** After a walk the declared names are exactly the old ones plus the
      name of every struct the cursor stops on. */
  lemma TsWalkDeclares(ns: seq<Node>, seen: set<string>)
    ensures TsWalk(ns, seen).seen == seen + ListedNames(TsListing(ns))
  {
    TsWalkIsListingFold(ns, seen);
    FoldStepsSeen(TsListing(ns), seen);
  }
}
