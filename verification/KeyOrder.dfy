/** The order of strings in a `BTreeMap` and in a sorted Python list: by code points, shorter prefixes first. */
module KeyOrder {

  predicate Less(a: string, b: string) {
    b != [] && (a == [] || a[0] < b[0] || (a[0] == b[0] && Less(a[1..], b[1..])))
  }

  lemma {:induction false} LessTotal(a: string, b: string)
    ensures Less(a, b) || a == b || Less(b, a)
  {
    if a != [] && b != [] && a[0] == b[0] {
      LessTotal(a[1..], b[1..]);
      assert a == [a[0]] + a[1..] && b == [b[0]] + b[1..];
    }
  }

  lemma {:induction false} LessTransitive(a: string, b: string, c: string)
    requires Less(a, b) && Less(b, c)
    ensures Less(a, c)
  {
    if a != [] && a[0] == b[0] && b[0] == c[0] {
      LessTransitive(a[1..], b[1..], c[1..]);
    }
  }

  predicate Ascending(keys: seq<string>) {
    forall i, j :: 0 <= i < j < |keys| ==> Less(keys[i], keys[j])
  }

  /** Where a new key belongs. */
  method FindSlot(keys: seq<string>, key: string) returns (k: nat)
    requires Ascending(keys) && key !in keys
    ensures k <= |keys|
    ensures forall i :: 0 <= i < k ==> Less(keys[i], key)
    ensures forall i :: k <= i < |keys| ==> Less(key, keys[i])
  {
    k := 0;
    while k < |keys| && Less(keys[k], key)
      invariant k <= |keys|
      invariant forall i :: 0 <= i < k ==> Less(keys[i], key)
    {
      k := k + 1;
    }
    if k < |keys| {
      LessTotal(keys[k], key);
      forall i | k <= i < |keys| ensures Less(key, keys[i]) {
        if k < i {
          LessTransitive(key, keys[k], keys[i]);
        }
      }
    }
  }

  method SortedKeys(keys: set<string>) returns (sorted: seq<string>)
    ensures Ascending(sorted)
    ensures forall key :: key in keys <==> key in sorted
  {
    sorted := [];
    var left := keys;
    while left != {}
      invariant left <= keys
      invariant Ascending(sorted)
      invariant forall key :: key in sorted <==> key in keys && key !in left
      decreases left
    {
      var key :| key in left;
      var k := FindSlot(sorted, key);
      sorted := sorted[..k] + [key] + sorted[k..];
      left := left - {key};
    }
  }
}
