/** The per-owner count maps that the two cascading deletes build in a `for` loop over
    the documents they are about to remove (a JavaScript `Map`, iterated in first-insertion
    order), and the enumeration of a query's result. */
module Counting {
  import opened Store

  predicate Distinct(s: seq<Id>) {
    forall i, j :: 0 <= i < j < |s| ==> s[i] != s[j]
  }

  lemma DistinctSnoc(s: seq<Id>, x: Id)
    requires Distinct(s) && x !in s
    ensures Distinct(s + [x])
  {
  }

  /** How often `k` occurs in `s`. */
  function Count(s: seq<Id>, k: Id): (n: nat)
    ensures n <= |s|
    ensures n > 0 <==> k in s
  {
    if s == [] then 0
    else
      var init := s[..|s| - 1];
      assert s == init + [s[|s| - 1]];
      Count(init, k) + (if s[|s| - 1] == k then 1 else 0)
  }

  lemma CountSnoc(s: seq<Id>, x: Id)
    ensures forall k :: Count(s + [x], k) == Count(s, k) + (if x == k then 1 else 0)
  {
    assert (s + [x])[..|s|] == s;
  }

  /** The sum of the values of `m` over the keys listed in `order`. */
  function SumOver(order: seq<Id>, m: map<Id, nat>): int
    requires forall k :: k in order ==> k in m
  {
    if order == [] then 0
    else SumOver(order[..|order| - 1], m) + m[order[|order| - 1]]
  }

  /** Changing the value of a key that is not listed leaves the sum alone. */
  lemma {:induction false} SumOverUnlisted(order: seq<Id>, m: map<Id, nat>, k: Id, v: nat)
    requires forall x :: x in order ==> x in m
    requires k !in order
    ensures SumOver(order, m[k := v]) == SumOver(order, m)
  {
    if order != [] {
      var init := order[..|order| - 1];
      assert forall x :: x in init ==> x in order;
      SumOverUnlisted(init, m, k, v);
    }
  }

  /** Changing the value of a key listed once changes the sum by the difference. */
  lemma {:induction false} SumOverListed(order: seq<Id>, m: map<Id, nat>, k: Id, v: nat)
    requires forall x :: x in order ==> x in m
    requires Distinct(order) && k in order
    ensures SumOver(order, m[k := v]) == SumOver(order, m) - m[k] + v
  {
    var init := order[..|order| - 1];
    assert forall x :: x in init ==> x in order;
    if order[|order| - 1] == k {
      assert k !in init;
      SumOverUnlisted(init, m, k, v);
    } else {
      assert order == init + [order[|order| - 1]];
      SumOverListed(init, m, k, v);
    }
  }

  lemma SumOverAppend(order: seq<Id>, m: map<Id, nat>, k: Id)
    requires forall x :: x in order ==> x in m
    requires k in m
    ensures SumOver(order + [k], m) == SumOver(order, m) + m[k]
  {
    assert (order + [k])[..|order|] == order;
  }

  /** The loop that fills the count map: `map.set(key, (map.get(key) || 0) + 1)` for each
      key. The map holds exactly the keys met, each with its number of occurrences; its
      iteration order lists each key once; its values add up to the number of keys read. */
  method CountByOwner(owners: seq<Id>) returns (order: seq<Id>, counts: map<Id, nat>)
    ensures Distinct(order)
    ensures forall k :: k in order <==> k in owners
    ensures forall k :: k in counts <==> k in owners
    ensures forall k :: k in counts ==> counts[k] == Count(owners, k)
    ensures SumOver(order, counts) == |owners|
  {
    order, counts := [], map[];
    for i := 0 to |owners|
      invariant Distinct(order)
      invariant forall k :: k in order <==> k in owners[..i]
      invariant forall k :: k in counts <==> k in owners[..i]
      invariant forall k :: k in counts ==> counts[k] == Count(owners[..i], k)
      invariant SumOver(order, counts) == i
    {
      var key := owners[i];
      assert owners[..i + 1] == owners[..i] + [key];
      CountSnoc(owners[..i], key);
      var c := if key in counts then counts[key] else 0;
      if key in counts {
        SumOverListed(order, counts, key, c + 1);
      } else {
        SumOverUnlisted(order, counts, key, c + 1);
        SumOverAppend(order, counts[key := c + 1], key);
        DistinctSnoc(order, key);
        order := order + [key];
      }
      counts := counts[key := c + 1];
    }
    assert owners[..|owners|] == owners;
  }

  /** `documents.map(d => d.owner)`. */
  function Owners(xs: seq<Id>, owner: map<Id, Id>): (os: seq<Id>)
    requires forall x :: x in xs ==> x in owner
    ensures |os| == |xs| && forall i :: 0 <= i < |xs| ==> os[i] == owner[xs[i]]
  {
    if xs == [] then []
    else Owners(xs[..|xs| - 1], owner) + [owner[xs[|xs| - 1]]]
  }

  /** The documents of `xs` whose owner is `a`. */
  function OwnedBy(xs: seq<Id>, owner: map<Id, Id>, a: Id): set<Id>
    requires forall x :: x in xs ==> x in owner
  {
    set x | x in xs && owner[x] == a
  }

  /** Counting owners over a list of distinct documents counts the documents of each owner. */
  lemma {:induction false} CountIsOwnedBy(xs: seq<Id>, owner: map<Id, Id>, a: Id)
    requires Distinct(xs) && forall x :: x in xs ==> x in owner
    ensures Count(Owners(xs, owner), a) == |OwnedBy(xs, owner, a)|
  {
    if xs != [] {
      var init := xs[..|xs| - 1];
      var last := xs[|xs| - 1];
      assert xs == init + [last];
      assert forall x :: x in init ==> x in xs;
      assert last !in init;
      CountIsOwnedBy(init, owner, a);
      CountSnoc(Owners(init, owner), owner[last]);
      if owner[last] == a {
        assert OwnedBy(xs, owner, a) == OwnedBy(init, owner, a) + {last};
      } else {
        assert OwnedBy(xs, owner, a) == OwnedBy(init, owner, a);
      }
    }
  }

  /** The count map built over the owners of an enumeration of `s` gives, for every key
      (present or not), the number of documents of `s` that key owns. */
  lemma CountsAreOwned(xs: seq<Id>, s: set<Id>, owner: map<Id, Id>, counts: map<Id, nat>, a: Id)
    requires Distinct(xs) && (forall x :: x in xs <==> x in s) && (forall x :: x in s ==> x in owner)
    requires forall k :: k in counts <==> k in Owners(xs, owner)
    requires forall k :: k in counts ==> counts[k] == Count(Owners(xs, owner), k)
    ensures (if a in counts then counts[a] else 0) == |set x | x in s && owner[x] == a|
  {
    CountIsOwnedBy(xs, owner, a);
    assert OwnedBy(xs, owner, a) == set x | x in s && owner[x] == a;
  }

  /** The documents a query returns, in some order, each once. */
  method Enumerate(s: set<Id>) returns (xs: seq<Id>)
    ensures Distinct(xs)
    ensures forall x :: x in xs <==> x in s
  {
    xs := [];
    var rest := s;
    while rest != {}
      invariant rest <= s
      invariant Distinct(xs)
      invariant forall x :: x in xs <==> x in s && x !in rest
      decreases |rest|
    {
      var x :| x in rest;
      xs := xs + [x];
      rest := rest - {x};
    }
  }
}
