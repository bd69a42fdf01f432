/** Parsed contract documents, and the stack scans that look for named members anywhere inside them. */
module ContractDocuments {
  import opened Results
  import opened Reachability

  /** JSON or YAML data; the keys of an object are distinct and paired with its values by position. */
  datatype Value =
    | Object(keys: seq<string>, values: seq<Value>)
    | Array(items: seq<Value>)
    | Text(text: string)
    | Null
    | Other

  const REF := "$ref"

  function Children(v: Value): seq<Value> {
    match v
    case Object(_, values) => values
    case Array(items) => items
    case _ => []
  }

  function Lookup(keys: seq<string>, values: seq<Value>, key: string): Value {
    if keys == [] || values == [] then Null
    else if keys[0] == key then values[0]
    else Lookup(keys[1..], values[1..], key)
  }

  /** The member of an object, `Null` when it is absent. */
  function Member(v: Value, key: string): Value {
    if v.Object? then Lookup(v.keys, v.values, key) else Null
  }

  // ------------------------------------------------- what a document holds, by structure

  function Own(v: Value, key: string): set<string> {
    if Member(v, key).Text? then {Member(v, key).text} else {}
  }

  /** The texts of every member of that name, anywhere in the value. */
  function Texts(v: Value, key: string): set<string> {
    Own(v, key) +
    match v
    case Object(_, values) => TextsAll(values, key)
    case Array(items) => TextsAll(items, key)
    case _ => {}
  }

  function TextsAll(vs: seq<Value>, key: string): set<string> {
    if vs == [] then {} else Texts(vs[0], key) + TextsAll(vs[1..], key)
  }

  predicate RefusedHere(v: Value) {
    Member(v, REF) != Null && (!Member(v, REF).Text? || Member(v, REF).text == "")
  }

  /** Somewhere a reference is present that is not a non-empty text. */
  predicate Refused(v: Value) {
    RefusedHere(v) ||
    match v
    case Object(_, values) => RefusedAny(values)
    case Array(items) => RefusedAny(items)
    case _ => false
  }

  predicate RefusedAny(vs: seq<Value>) {
    vs != [] && (Refused(vs[0]) || RefusedAny(vs[1..]))
  }

  function Size(v: Value): nat {
    1 + match v
    case Object(_, values) => SizeAll(values)
    case Array(items) => SizeAll(items)
    case _ => 0
  }

  function SizeAll(vs: seq<Value>): nat {
    if vs == [] then 0 else Size(vs[0]) + SizeAll(vs[1..])
  }

  lemma {:induction false} OverConcatenation(a: seq<Value>, b: seq<Value>, key: string)
    ensures TextsAll(a + b, key) == TextsAll(a, key) + TextsAll(b, key)
    ensures RefusedAny(a + b) <==> RefusedAny(a) || RefusedAny(b)
    ensures SizeAll(a + b) == SizeAll(a) + SizeAll(b)
  {
    if a == [] {
      assert a + b == b;
    } else {
      assert (a + b)[1..] == a[1..] + b;
      OverConcatenation(a[1..], b, key);
    }
  }

  /** One scan step: the last value is replaced by its children. */
  lemma Unstack(stack: seq<Value>, key: string)
    requires stack != []
    ensures var v, rest := stack[|stack| - 1], stack[..|stack| - 1];
            && TextsAll(stack, key) == Own(v, key) + TextsAll(rest + Children(v), key)
            && (RefusedAny(stack) <==> RefusedHere(v) || RefusedAny(rest + Children(v)))
            && SizeAll(rest + Children(v)) == SizeAll(stack) - 1
  {
    var v, rest := stack[|stack| - 1], stack[..|stack| - 1];
    assert stack == rest + [v];
    OverConcatenation(rest, [v], key);
    OverConcatenation(rest, Children(v), key);
    assert [v][1..] == [];
    assert TextsAll([v], key) == Texts(v, key);
    assert Texts(v, key) == Own(v, key) + TextsAll(Children(v), key);
    assert Refused(v) <==> RefusedHere(v) || RefusedAny(Children(v));
  }

  // --------------------------------------------------------------------- the scans

  /** Every reference of a document, or a refusal of a malformed one. */
  method LocalReferences(document: Value) returns (r: Result<seq<string>, ()>)
    ensures r.Err? <==> Refused(document)
    ensures r.Ok? ==> Elements(r.value) == Texts(document, REF)
  {
    var references: seq<string> := [];
    var stack := [document];
    assert stack[1..] == [];
    while stack != []
      invariant Elements(references) + TextsAll(stack, REF) == Texts(document, REF)
      invariant RefusedAny(stack) <==> Refused(document)
      decreases SizeAll(stack)
    {
      Unstack(stack, REF);
      var value := stack[|stack| - 1];
      var reference := Member(value, REF);
      if reference != Null {
        if !reference.Text? || reference.text == "" {
          return Err(());
        }
        assert Elements(references + [reference.text]) == Elements(references) + {reference.text};
        references := references + [reference.text];
      }
      stack := stack[..|stack| - 1] + Children(value);
    }
    return Ok(references);
  }

  /** Whether some object of the document carries this operation identifier. */
  method HasOperation(document: Value, operation: string) returns (found: bool)
    ensures found <==> operation in Texts(document, "operationId")
  {
    var ids: set<string> := {};
    var stack := [document];
    assert stack[1..] == [];
    while stack != []
      invariant ids + TextsAll(stack, "operationId") == Texts(document, "operationId")
      decreases SizeAll(stack)
    {
      Unstack(stack, "operationId");
      var value := stack[|stack| - 1];
      var candidate := Member(value, "operationId");
      if candidate.Text? {
        ids := ids + {candidate.text};
      }
      stack := stack[..|stack| - 1] + Children(value);
    }
    return operation in ids;
  }
}
