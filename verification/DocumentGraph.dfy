/**
 Loaded documents as the loaders leave them: nodes with an identity, which a YAML
 anchor may share or even place inside itself.  The stack scans of the builders do
 not remember nodes, so a scan ends exactly when no node it meets contains itself,
 and then it sees the tree that the document unfolds to.
 */
module DocumentGraph {
  import opened Results
  import opened ContractDocuments

  type Id = nat

  /** A container by the identities of its values, or a scalar. */
  datatype Node = ObjectNode(keys: seq<string>, values: seq<Id>) | ArrayNode(items: seq<Id>) | Scalar(value: Value)

  type Heap = map<Id, Node>

  function ChildIds(node: Node): seq<Id> {
    match node
    case ObjectNode(_, values) => values
    case ArrayNode(items) => items
    case Scalar(_) => []
  }

  /** Every value of a container is loaded, and a scalar holds no values. */
  predicate Loaded(h: Heap) {
    forall id :: id in h ==>
      && (forall k :: 0 <= k < |ChildIds(h[id])| ==> ChildIds(h[id])[k] in h)
      && (h[id].Scalar? ==> !h[id].value.Object? && !h[id].value.Array?)
  }

  predicate AllIn(h: Heap, ids: seq<Id>) { forall k :: 0 <= k < |ids| ==> ids[k] in h }

  // -------------------------------------------------------------------- the scan

  /** The stack after `n` rounds of the scan; an empty stack stays empty. */
  ghost function StackAfter(h: Heap, stack: seq<Id>, n: nat): (s: seq<Id>)
    requires Loaded(h) && AllIn(h, stack)
    ensures AllIn(h, s)
    decreases n
  {
    if n == 0 || stack == [] then stack
    else StackAfter(h, Popped(h, stack), n - 1)
  }

  function Popped(h: Heap, stack: seq<Id>): (s: seq<Id>)
    requires Loaded(h) && AllIn(h, stack) && stack != []
    ensures AllIn(h, s)
  {
    stack[..|stack| - 1] + ChildIds(h[stack[|stack| - 1]])
  }

  ghost predicate ScanEnds(h: Heap, root: Id)
    requires Loaded(h) && root in h
  {
    exists n: nat :: StackAfter(h, [root], n) == []
  }

  // ------------------------------------------------------------------ containment

  ghost predicate Contains(h: Heap, a: Id, b: Id) { a in h && b in ChildIds(h[a]) }

  ghost predicate IsPath(h: Heap, path: seq<Id>) {
    path != [] && path[0] in h && forall i :: 0 <= i < |path| - 1 ==> Contains(h, path[i], path[i + 1])
  }

  ghost predicate Joins(h: Heap, path: seq<Id>, a: Id, b: Id) {
    IsPath(h, path) && path[0] == a && path[|path| - 1] == b
  }

  /** A node is met from the root and contains itself, directly or deeper. */
  ghost predicate IsLoop(h: Heap, root: Id, there: seq<Id>, round: seq<Id>) {
    IsPath(h, there) && there[0] == root && |round| >= 2 && Joins(h, round, there[|there| - 1], there[|there| - 1])
  }

  ghost predicate Cyclic(h: Heap, root: Id) { exists there, round :: IsLoop(h, root, there, round) }

  /** No chain of containments from here is longer than `d`. */
  ghost predicate Bounded(h: Heap, id: Id, d: nat)
    requires Loaded(h) && id in h
    decreases d
  {
    d > 0 && forall k :: 0 <= k < |ChildIds(h[id])| ==> Bounded(h, ChildIds(h[id])[k], d - 1)
  }

  lemma {:induction false} BoundedMore(h: Heap, id: Id, d: nat, e: nat)
    requires Loaded(h) && id in h && Bounded(h, id, d) && d <= e
    ensures Bounded(h, id, e)
    decreases d
  {
    forall k | 0 <= k < |ChildIds(h[id])| ensures Bounded(h, ChildIds(h[id])[k], e - 1) {
      BoundedMore(h, ChildIds(h[id])[k], d - 1, e - 1);
    }
  }

  // ------------------------------------------------------ ending means bounded depth

  ghost predicate AllBounded(h: Heap, ids: seq<Id>, d: nat)
    requires Loaded(h) && AllIn(h, ids)
  {
    forall k :: 0 <= k < |ids| ==> Bounded(h, ids[k], d)
  }

  /** A stack that is emptied in `n` rounds holds nothing deeper than `n`. */
  lemma {:induction false} EndedIsBounded(h: Heap, stack: seq<Id>, n: nat)
    requires Loaded(h) && AllIn(h, stack) && StackAfter(h, stack, n) == []
    ensures AllBounded(h, stack, n)
    decreases n
  {
    if stack != [] {
      var rest, top := stack[..|stack| - 1], stack[|stack| - 1];
      var popped := Popped(h, stack);
      EndedIsBounded(h, popped, n - 1);
      forall k | 0 <= k < |rest| ensures Bounded(h, rest[k], n) {
        assert popped[k] == rest[k];
        BoundedMore(h, rest[k], n - 1, n);
      }
      forall k | 0 <= k < |ChildIds(h[top])| ensures Bounded(h, ChildIds(h[top])[k], n - 1) {
        assert popped[|rest| + k] == ChildIds(h[top])[k];
      }
      assert Bounded(h, top, n);
    }
  }

  // ------------------------------------------------- bounded depth means no cycle

  lemma {:induction false} BoundedAlong(h: Heap, path: seq<Id>, d: nat, k: nat)
    requires Loaded(h) && IsPath(h, path) && Bounded(h, path[0], d) && k < |path|
    ensures k < d && path[k] in h && Bounded(h, path[k], d - k)
  {
    if k > 0 {
      BoundedAlong(h, path, d, k - 1);
      assert Contains(h, path[k - 1], path[k]);
    }
  }

  lemma {:induction false} BoundedHasNoRound(h: Heap, round: seq<Id>, d: nat)
    requires Loaded(h) && IsPath(h, round) && |round| >= 2 && round[|round| - 1] == round[0]
    ensures !Bounded(h, round[0], d)
    decreases d
  {
    if Bounded(h, round[0], d) {
      BoundedAlong(h, round, d, |round| - 1);
      BoundedHasNoRound(h, round, d - (|round| - 1));
    }
  }

  lemma BoundedIsAcyclic(h: Heap, root: Id, d: nat)
    requires Loaded(h) && root in h && Bounded(h, root, d)
    ensures !Cyclic(h, root)
  {
    forall there, round | IsLoop(h, root, there, round) ensures false {
      BoundedAlong(h, there, d, |there| - 1);
      BoundedHasNoRound(h, round, d - (|there| - 1));
    }
  }

  // ------------------------------------------------- no cycle means bounded depth

  /** Below a node that is not bounded by `d` there is a chain of more than `d` nodes. */
  lemma {:induction false} UnboundedHasChain(h: Heap, id: Id, d: nat) returns (path: seq<Id>)
    requires Loaded(h) && id in h && !Bounded(h, id, d)
    ensures IsPath(h, path) && path[0] == id && |path| == d + 1 && AllIn(h, path)
    decreases d
  {
    if d == 0 {
      return [id];
    }
    var k :| 0 <= k < |ChildIds(h[id])| && !Bounded(h, ChildIds(h[id])[k], d - 1);
    var rest := UnboundedHasChain(h, ChildIds(h[id])[k], d - 1);
    path := [id] + rest;
    forall i | 0 <= i < |path| - 1 ensures Contains(h, path[i], path[i + 1]) {
      if i > 0 {
        assert Contains(h, rest[i - 1], rest[i]);
      }
    }
  }

  /** A sequence longer than a set it stays in repeats an element. */
  lemma {:induction false} Repeats(ids: seq<Id>, within: set<Id>) returns (i: nat, j: nat)
    requires |ids| > |within| && forall k :: 0 <= k < |ids| ==> ids[k] in within
    ensures i < j < |ids| && ids[i] == ids[j]
    decreases |ids|
  {
    var last := |ids| - 1;
    if k :| 0 <= k < last && ids[k] == ids[last] {
      return k, last;
    }
    i, j := Repeats(ids[..last], within - {ids[last]});
  }

  lemma PartIsPath(h: Heap, path: seq<Id>, a: nat, b: nat)
    requires IsPath(h, path) && AllIn(h, path) && a < b <= |path|
    ensures IsPath(h, path[a..b])
  {
    var part := path[a..b];
    forall k | 0 <= k < |part| - 1 ensures Contains(h, part[k], part[k + 1]) {
      assert Contains(h, path[a + k], path[a + k + 1]);
    }
  }

  lemma RepeatIsLoop(h: Heap, path: seq<Id>, i: nat, j: nat)
    requires IsPath(h, path) && AllIn(h, path) && i < j < |path| && path[i] == path[j]
    ensures Cyclic(h, path[0])
  {
    PartIsPath(h, path, 0, i + 1);
    PartIsPath(h, path, i, j + 1);
    var there, round := path[0..i + 1], path[i..j + 1];
    assert there[|there| - 1] == path[i] && round[0] == path[i] && round[|round| - 1] == path[j];
    assert IsLoop(h, path[0], there, round);
  }

  lemma AcyclicIsBounded(h: Heap, root: Id)
    requires Loaded(h) && root in h && !Cyclic(h, root)
    ensures Bounded(h, root, |h.Keys|)
  {
    if !Bounded(h, root, |h.Keys|) {
      var path := UnboundedHasChain(h, root, |h.Keys|);
      var i, j := Repeats(path, h.Keys);
      RepeatIsLoop(h, path, i, j);
    }
  }

  // --------------------------------------------------------- what an ending scan sees

  /** The node unfolds to this tree, with shared nodes copied. */
  ghost predicate Unfolds(h: Heap, id: Id, v: Value)
    decreases v
  {
    && id in h
    && match v
       case Object(keys, values) => h[id].ObjectNode? && h[id].keys == keys && UnfoldAll(h, h[id].values, values)
       case Array(items) => h[id].ArrayNode? && UnfoldAll(h, h[id].items, items)
       case _ => h[id] == Scalar(v)
  }

  ghost predicate UnfoldAll(h: Heap, ids: seq<Id>, vs: seq<Value>)
    decreases vs
  {
    |ids| == |vs| && forall k :: 0 <= k < |vs| ==> Unfolds(h, ids[k], vs[k])
  }

  ghost predicate IsTree(h: Heap, id: Id) {
    exists v :: Unfolds(h, id, v)
  }

  lemma ChildrenUnfold(h: Heap, id: Id, v: Value)
    requires Unfolds(h, id, v)
    ensures UnfoldAll(h, ChildIds(h[id]), Children(v))
  {
  }

  /** A node of bounded depth unfolds to a tree. */
  lemma {:induction false} BoundedUnfolds(h: Heap, id: Id, d: nat) returns (v: Value)
    requires Loaded(h) && id in h && Bounded(h, id, d)
    ensures Unfolds(h, id, v)
    decreases d, 1, 0
  {
    var vs := AllBoundedUnfold(h, ChildIds(h[id]), d - 1);
    match h[id]
    case ObjectNode(keys, _) => return Object(keys, vs);
    case ArrayNode(_) => return Array(vs);
    case Scalar(value) => return value;
  }

  lemma {:induction false} AllBoundedUnfold(h: Heap, ids: seq<Id>, d: nat) returns (vs: seq<Value>)
    requires Loaded(h) && AllIn(h, ids) && AllBounded(h, ids, d)
    ensures UnfoldAll(h, ids, vs)
    decreases d, 2, |ids|
  {
    vs := [];
    if ids != [] {
      var n := |ids| - 1;
      assert Bounded(h, ids[n], d);
      var before := AllBoundedUnfold(h, ids[..n], d);
      var last := BoundedUnfolds(h, ids[n], d);
      vs := before + [last];
    }
  }

  /** The value of a member, by the identity it is stored under. */
  function LookupId(keys: seq<string>, values: seq<Id>, key: string): Option<Id> {
    if keys == [] || values == [] then None
    else if keys[0] == key then Some(values[0])
    else LookupId(keys[1..], values[1..], key)
  }

  /** The text that a scanned node carries under the key. */
  function TextAt(h: Heap, id: Id, key: string): set<string>
    requires id in h
  {
    if !h[id].ObjectNode? then {}
    else
      var found := LookupId(h[id].keys, h[id].values, key);
      if found.None? || found.value !in h then {} else OwnText(h[found.value])
  }

  function OwnText(node: Node): set<string> {
    if node.Scalar? && node.value.Text? then {node.value.text} else {}
  }

  /** What `n` rounds of the scan find. */
  ghost function FoundAfter(h: Heap, stack: seq<Id>, n: nat, key: string): set<string>
    requires Loaded(h) && AllIn(h, stack)
    decreases n
  {
    if n == 0 || stack == [] then {}
    else TextAt(h, stack[|stack| - 1], key) + FoundAfter(h, Popped(h, stack), n - 1, key)
  }

  lemma {:induction false} LookupUnfolds(h: Heap, keys: seq<string>, ids: seq<Id>, vs: seq<Value>, key: string)
    requires UnfoldAll(h, ids, vs)
    ensures var found := LookupId(keys, ids, key);
            if found.Some? then Unfolds(h, found.value, Lookup(keys, vs, key)) else Lookup(keys, vs, key) == Null
  {
    if keys != [] && ids != [] && keys[0] != key {
      LookupUnfolds(h, keys[1..], ids[1..], vs[1..], key);
    }
  }

  lemma TextAtIsOwn(h: Heap, id: Id, v: Value, key: string)
    requires Unfolds(h, id, v)
    ensures TextAt(h, id, key) == Own(v, key)
  {
    if v.Object? {
      LookupUnfolds(h, v.keys, h[id].values, v.values, key);
    }
  }

  /** One round on the nodes is one round on the trees they unfold to. */
  lemma RoundUnfolds(h: Heap, stack: seq<Id>, vs: seq<Value>)
    requires Loaded(h) && AllIn(h, stack) && stack != [] && UnfoldAll(h, stack, vs)
    ensures UnfoldAll(h, Popped(h, stack), vs[..|vs| - 1] + Children(vs[|vs| - 1]))
  {
    var n := |stack| - 1;
    ChildrenUnfold(h, stack[n], vs[n]);
    var popped, below := Popped(h, stack), vs[..n] + Children(vs[n]);
    forall k | 0 <= k < |below| ensures Unfolds(h, popped[k], below[k]) {
      if k >= n {
        assert popped[k] == ChildIds(h[stack[n]])[k - n] && below[k] == Children(vs[n])[k - n];
      }
    }
  }

  /** The scan of nodes that unfold to trees ends, and finds exactly the texts anywhere in these trees. */
  lemma {:induction false} ScanOfTrees(h: Heap, stack: seq<Id>, vs: seq<Value>, key: string)
    requires Loaded(h) && AllIn(h, stack) && UnfoldAll(h, stack, vs)
    ensures StackAfter(h, stack, SizeAll(vs)) == []
    ensures FoundAfter(h, stack, SizeAll(vs), key) == TextsAll(vs, key)
    decreases SizeAll(vs)
  {
    if stack != [] {
      var n := |stack| - 1;
      var below := vs[..n] + Children(vs[n]);
      Unstack(vs, key);
      RoundUnfolds(h, stack, vs);
      ScanOfTrees(h, Popped(h, stack), below, key);
      TextAtIsOwn(h, stack[n], vs[n], key);
    }
  }

  /**
   The scan of a loaded document ends exactly when no node it meets contains itself,
   and then the document unfolds to a tree and the scan finds exactly its texts.
   */
  lemma ScanEndsExactly(h: Heap, root: Id, key: string)
    requires Loaded(h) && root in h
    ensures ScanEnds(h, root) <==> !Cyclic(h, root)
    ensures ScanEnds(h, root) <==> IsTree(h, root)
    ensures forall v :: Unfolds(h, root, v) ==> FoundAfter(h, [root], Size(v), key) == Texts(v, key)
  {
    if ScanEnds(h, root) {
      var n: nat :| StackAfter(h, [root], n) == [];
      EndedIsBounded(h, [root], n);
      assert Bounded(h, [root][0], n);
      BoundedIsAcyclic(h, root, n);
    }
    if !Cyclic(h, root) {
      AcyclicIsBounded(h, root);
      var v := BoundedUnfolds(h, root, |h.Keys|);
      assert IsTree(h, root);
    }
    forall v | Unfolds(h, root, v) ensures ScanEnds(h, root) && FoundAfter(h, [root], Size(v), key) == Texts(v, key) {
      ScanOfTrees(h, [root], [v], key);
      assert [v][1..] == [];
      assert SizeAll([v]) == Size(v) && TextsAll([v], key) == Texts(v, key);
    }
  }

  /** A list that holds itself, as a YAML anchor inside its own sequence makes it, is scanned forever. */
  lemma SelfHoldingListNeverEnds()
    ensures var h := map[0 := ObjectNode(["x"], [1]), 1 := ArrayNode([1])]; Loaded(h) && !ScanEnds(h, 0)
  {
    var h: Heap := map[0 := ObjectNode(["x"], [1]), 1 := ArrayNode([1])];
    assert Contains(h, 0, 1) && Contains(h, 1, 1);
    assert IsLoop(h, 0, [0, 1], [1, 1]);
    ScanEndsExactly(h, 0, REF);
  }
}
