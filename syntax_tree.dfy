/** The parse tree the translator walks, as an immutable value, and the
    queries both revisions make on it: the first child of a kind, the
    children under a field label, and the pre-order listing of a forest. */
module SyntaxTree {

  datatype Option<T> = None | Some(value: T)

  /** A node of the Slint parse tree: its grammar kind (`struct_definition`,
      `block`, `property`, ...), the field label under which it hangs in its
      parent (`name`, `type`, `property`, `value`, `return_type`,
      `arguments`), its source text, and its children in document order. */
  datatype Node = Node(kind: string, field: Option<string>, text: string, children: seq<Node>)

  /** Index of the first node in `ns` whose kind is `kind`. */
  function IndexOfKind(ns: seq<Node>, kind: string): (r: Option<nat>)
    ensures r.Some? ==> r.value < |ns| && ns[r.value].kind == kind
    ensures r.Some? ==> forall j :: 0 <= j < r.value ==> ns[j].kind != kind
    ensures r.None? <==> forall j :: 0 <= j < |ns| ==> ns[j].kind != kind
  {
    if ns == [] then None
    else if ns[0].kind == kind then Some(0)
    else match IndexOfKind(ns[1..], kind)
      case None => None
      case Some(i) => Some(i + 1)
  }

  /** Text of the first direct child of `n` of the given kind, if any. */
  function ChildTextOfKind(n: Node, kind: string): Option<string>
  {
    match IndexOfKind(n.children, kind)
    case None => None
    case Some(i) => Some(n.children[i].text)
  }

  /** `find_child_by_kind` / `findChildByKind`: walk the direct children in
      order and return the text of the first one of the given kind. */
  method FindChildByKind(n: Node, kind: string) returns (r: Option<string>)
    ensures r == ChildTextOfKind(n, kind)
  {
    var i := 0;
    while i < |n.children|
      invariant 0 <= i <= |n.children|
      invariant forall j :: 0 <= j < i ==> n.children[j].kind != kind
    {
      if n.children[i].kind == kind {
        return Some(n.children[i].text);
      }
      i := i + 1;
    }
    return None;
  }

  /** First child of `ns` carrying the field label `fieldName`
      (`child_by_field_name` / `childForFieldName`). */
  function FieldChild(ns: seq<Node>, fieldName: string): (r: Option<Node>)
    ensures r.Some? ==> r.value in ns && r.value.field == Some(fieldName)
    ensures r.Some? ==>
      exists k :: 0 <= k < |ns| && ns[k] == r.value && forall j :: 0 <= j < k ==> ns[j].field != Some(fieldName)
    ensures r.None? <==> forall j :: 0 <= j < |ns| ==> ns[j].field != Some(fieldName)
  {
    if ns == [] then None
    else if ns[0].field == Some(fieldName) then Some(ns[0])
    else FieldChild(ns[1..], fieldName)
  }

  /** Text of the child under `fieldName`, or `""` when there is none
      (the TypeScript `?.text ?? ""`). */
  function FieldTextOr(n: Node, fieldName: string): string
  {
    match FieldChild(n.children, fieldName)
    case None => ""
    case Some(c) => c.text
  }

  /** Texts of all children under `fieldName`, in document order
      (`children_by_field_name` / `childrenForFieldName` mapped to text). */
  function FieldTexts(ns: seq<Node>, fieldName: string): (r: seq<string>)
    ensures |r| <= |ns|
    ensures forall t :: t in r <==> exists j :: 0 <= j < |ns| && ns[j].field == Some(fieldName) && ns[j].text == t
  {
    if ns == [] then []
    else (if ns[0].field == Some(fieldName) then [ns[0].text] else []) + FieldTexts(ns[1..], fieldName)
  }

  /** Collecting field texts distributes over concatenation of child lists,
      so the collected texts keep document order. */
  lemma {:induction false} FieldTextsConcat(a: seq<Node>, b: seq<Node>, fieldName: string)
    ensures FieldTexts(a + b, fieldName) == FieldTexts(a, fieldName) + FieldTexts(b, fieldName)
  {
    if a == [] {
      assert a + b == b;
    } else {
      assert (a + b)[1..] == a[1..] + b;
      FieldTextsConcat(a[1..], b, fieldName);
      var head := if a[0].field == Some(fieldName) then [a[0].text] else [];
      assert FieldTexts(a, fieldName) == head + FieldTexts(a[1..], fieldName);
      assert head + (FieldTexts(a[1..], fieldName) + FieldTexts(b, fieldName))
        == head + FieldTexts(a[1..], fieldName) + FieldTexts(b, fieldName);
    }
  }

  /** The nodes of a forest in pre-order: each node, then its subtree,
      then its following siblings; the order in which both walkers visit. */
  function PreOrder(ns: seq<Node>): seq<Node>
    decreases ns
  {
    if ns == [] then [] else [ns[0]] + PreOrder(ns[0].children) + PreOrder(ns[1..])
  }

  /** Number of nodes in a forest, counted independently of `PreOrder`. */
  function ForestSize(ns: seq<Node>): nat
    decreases ns
  {
    if ns == [] then 0 else 1 + ForestSize(ns[0].children) + ForestSize(ns[1..])
  }

  /** Every node of the forest appears in the pre-order listing, the roots
      before their descendants, and the listing has exactly as many entries
      as the forest has nodes, so none is listed twice. */
  lemma {:induction false} PreOrderCoversForest(ns: seq<Node>)
    ensures |PreOrder(ns)| == ForestSize(ns)
    ensures forall i :: 0 <= i < |ns| ==> ns[i] in PreOrder(ns)
    ensures forall i, m :: 0 <= i < |ns| && m in PreOrder(ns[i].children) ==> m in PreOrder(ns)
    decreases ns
  {
    if ns != [] {
      PreOrderCoversForest(ns[0].children);
      PreOrderCoversForest(ns[1..]);
      forall i, m | 0 <= i < |ns| && m in PreOrder(ns[i].children)
        ensures m in PreOrder(ns)
      {
        if i > 0 {
          assert ns[1..][i - 1] == ns[i];
        }
      }
      forall i | 0 <= i < |ns|
        ensures ns[i] in PreOrder(ns)
      {
        if i > 0 {
          assert ns[1..][i - 1] == ns[i];
        }
      }
    }
  }

  /** Texts of the children of `cs` under `fieldName`, pushed one by one
      (the `for .. in children_by_field_name(..)` loops of the Rust revision,
      the `for (const .. of childrenForFieldName(..))` loops of the
      TypeScript one). */
  method CollectFieldTexts(cs: seq<Node>, fieldName: string) returns (texts: seq<string>)
    ensures texts == FieldTexts(cs, fieldName)
  {
    texts := [];
    var j := 0;
    while j < |cs|
      invariant 0 <= j <= |cs|
      invariant texts + FieldTexts(cs[j..], fieldName) == FieldTexts(cs, fieldName)
    {
      assert cs[j..][1..] == cs[j + 1..];
      if cs[j].field == Some(fieldName) {
        AppendAssoc(texts, [cs[j].text], FieldTexts(cs[j + 1..], fieldName));
        texts := texts + [cs[j].text];
      } else {
        assert [] + FieldTexts(cs[j + 1..], fieldName) == FieldTexts(cs[j + 1..], fieldName);
      }
      j := j + 1;
    }
  }

  /** Concatenation regrouped; stated once so that proofs can call it. */
  lemma AppendAssoc<T>(a: seq<T>, b: seq<T>, c: seq<T>)
    ensures a + b + c == a + (b + c)
  {
  }

  /** Three pieces appended one at a time are the three appended at once. */
  lemma AppendRegroup<T>(whole: seq<T>, before: seq<T>, a: seq<T>, b: seq<T>, c: seq<T>)
    requires whole == before + a + b + c
    ensures whole == before + (a + b + c)
  {
  }
}
