/** Listing a finite set of keys in order, the way `ORDER BY id` and `ORDER BY id DESC` do. */
module OrderedKeys {

  /** `a` is listed strictly before `b`; `desc` reverses the order. */
  predicate Before(desc: bool, a: nat, b: nat) {
    if desc then b < a else a < b
  }

  predicate Ordered(desc: bool, keys: seq<nat>) {
    forall i, j :: 0 <= i < j < |keys| ==> Before(desc, keys[i], keys[j])
  }

  lemma {:induction false} SomeKeyIsFirst(keys: set<nat>, desc: bool)
    requires keys != {}
    ensures exists m :: m in keys && forall x :: x in keys ==> x == m || Before(desc, m, x)
  {
    var k :| k in keys;
    var rest := keys - {k};
    if rest == {} {
      forall x | x in keys ensures x == k {
        assert x in rest || x == k;
      }
    } else {
      SomeKeyIsFirst(rest, desc);
      var m :| m in rest && forall x :: x in rest ==> x == m || Before(desc, m, x);
      var first := if Before(desc, k, m) then k else m;
      assert forall x :: x in keys ==> x == k || x in rest;
      assert first in keys && forall x :: x in keys ==> x == first || Before(desc, first, x);
    }
  }

  function First(keys: set<nat>, desc: bool): (m: nat)
    requires keys != {}
    ensures m in keys
    ensures forall x :: x in keys ==> x == m || Before(desc, m, x)
  {
    SomeKeyIsFirst(keys, desc);
    var m :| m in keys && forall x :: x in keys ==> x == m || Before(desc, m, x);
    m
  }

  function Listing(keys: set<nat>, desc: bool): (l: seq<nat>)
    ensures Ordered(desc, l)
    ensures forall x :: x in l <==> x in keys
    ensures |l| == |keys|
  {
    if keys == {} then []
    else
      var m := First(keys, desc);
      [m] + Listing(keys - {m}, desc)
  }

  /** An ordered listing is determined by its elements. */
  lemma {:induction false} OrderedListingIsUnique(desc: bool, a: seq<nat>, b: seq<nat>)
    requires Ordered(desc, a) && Ordered(desc, b)
    requires forall x :: x in a <==> x in b
    ensures a == b
  {
    if a == [] {
      assert forall i :: 0 <= i < |b| ==> b[i] in b;
    } else {
      assert a[0] in b;
      assert b[0] in a;
      assert a[0] == b[0];
      forall x ensures x in a[1..] <==> x in b[1..] {
        if x in a[1..] { assert x in b; }
        if x in b[1..] { assert x in a; }
      }
      OrderedListingIsUnique(desc, a[1..], b[1..]);
    }
  }
}
