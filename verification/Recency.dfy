/** Orders of keys without repetition, most recent first: moving to the front, and what is ahead. */
module Recency {

  ghost predicate Distinct<K(!new)>(keys: seq<K>) {
    forall i, j :: 0 <= i < j < |keys| ==> keys[i] != keys[j]
  }

  /** The order with `key` taken out. */
  function Without<K(==)>(order: seq<K>, key: K): seq<K> {
    if order == [] then []
    else if order[0] == key then Without(order[1..], key)
    else [order[0]] + Without(order[1..], key)
  }

  lemma {:induction false} WithoutMembers<K(!new)>(order: seq<K>, key: K)
    ensures var r := Without(order, key);
            && (forall k :: k in r <==> k in order && k != key)
            && |r| <= |order|
            && (key !in order ==> r == order)
            && (key in order ==> |r| < |order|)
  {
    if order == [] {
    } else {
      WithoutMembers(order[1..], key);
    }
  }

  lemma PrependDistinct<K(!new)>(key: K, keys: seq<K>)
    requires Distinct(keys) && key !in keys
    ensures Distinct([key] + keys)
  {
    assert forall i :: 0 <= i < |keys| ==> keys[i] in keys;
  }

  lemma {:induction false} WithoutDistinct<K(!new)>(order: seq<K>, key: K)
    requires Distinct(order)
    ensures Distinct(Without(order, key))
  {
    if order == [] {
    } else {
      assert Distinct(order[1..]) && order[0] !in order[1..];
      WithoutDistinct(order[1..], key);
      WithoutMembers(order[1..], key);
      if order[0] != key {
        PrependDistinct(order[0], Without(order[1..], key));
      }
    }
  }

  // ---- what is ahead of a key ---------------------------------------------------------

  /** The keys in front of `key` in the recency order. */
  function Ahead<K(==)>(order: seq<K>, key: K): set<K> {
    if order == [] || order[0] == key then {} else {order[0]} + Ahead(order[1..], key)
  }

  lemma {:induction false} AheadAfterMove<K(!new)>(order: seq<K>, moved: K, key: K)
    requires moved != key
    ensures Ahead([moved] + Without(order, moved), key) == Ahead(order, key) + {moved}
  {
    assert ([moved] + Without(order, moved))[1..] == Without(order, moved);
    if order == [] || order[0] == key {
    } else {
      AheadAfterMove(order[1..], moved, key);
      assert ([moved] + Without(order[1..], moved))[1..] == Without(order[1..], moved);
      if order[0] != moved {
        assert Without(order, moved)[1..] == Without(order[1..], moved);
      }
    }
  }

  lemma {:induction false} AheadInside<K(!new)>(order: seq<K>, key: K)
    requires Distinct(order)
    ensures forall k :: k in Ahead(order, key) ==> k in order && k != key
  {
    if order == [] || order[0] == key {
    } else {
      AheadInside(order[1..], key);
    }
  }

  lemma {:induction false} AheadOfLast<K(!new)>(order: seq<K>)
    requires Distinct(order) && order != []
    ensures |Ahead(order, order[|order| - 1])| == |order| - 1
  {
    if |order| == 1 {
    } else {
      var key := order[|order| - 1];
      assert Distinct(order[1..]) && order[0] !in order[1..];
      AheadOfLast(order[1..]);
      AheadInside(order[1..], key);
    }
  }

  lemma {:induction false} AheadOfEarlier<K(!new)>(order: seq<K>, key: K)
    requires key in order && order[|order| - 1] != key
    ensures Ahead(order[..|order| - 1], key) == Ahead(order, key)
  {
    if order[0] == key {
    } else {
      AheadOfEarlier(order[1..], key);
      assert order[..|order| - 1][1..] == order[1..][..|order| - 2];
    }
  }

  lemma {:induction false} AheadIsShorter<K(!new)>(order: seq<K>, key: K)
    requires key in order
    ensures |Ahead(order, key)| < |order|
  {
    if order[0] == key {
    } else {
      AheadIsShorter(order[1..], key);
    }
  }

  lemma {:induction false} Subset<K(!new)>(a: set<K>, b: set<K>)
    requires a <= b
    ensures |a| <= |b|
  {
    if a == {} {
    } else {
      var x :| x in a;
      Subset(a - {x}, b - {x});
    }
  }
}
