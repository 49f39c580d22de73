/** Counting the elements of a sequence, and listing the keys of a map. */
module Seqs {

  lemma TakeOut<T>(s: seq<T>, i: nat) returns (rest: seq<T>)
    requires i < |s|
    ensures rest == s[..i] + s[i + 1..] && multiset(s) == multiset(rest) + multiset{s[i]}
  {
    rest := s[..i] + s[i + 1..];
    assert s == s[..i] + [s[i]] + s[i + 1..];
  }

  lemma Uncons<T>(s: seq<T>)
    requires s != []
    ensures multiset(s[1..]) == multiset(s) - multiset{s[0]}
  {
    assert s == [s[0]] + s[1..];
  }

  lemma Twice<T>(s: seq<T>, i: nat, j: nat)
    requires i < j < |s| && s[i] == s[j]
    ensures multiset(s)[s[i]] >= 2
  {
    var rest := TakeOut(s, j);
    assert rest[i] == s[i];
    assert s[i] in multiset(rest);
  }

  /** Inserting the next element into a permutation of those before it. */
  lemma InsertPermutes<T>(done: seq<T>, s: seq<T>, i: nat, j: nat)
    requires i < |s| && j <= |done| && multiset(done) == multiset(s[..i])
    ensures multiset(done[..j] + [s[i]] + done[j..]) == multiset(s[..i + 1])
  {
    assert done == done[..j] + done[j..] && s[..i + 1] == s[..i] + [s[i]];
  }

  /** `order` lists each of the keys once: one way a Go map may be walked. */
  ghost predicate Walk<K(!new)>(order: seq<K>, keys: set<K>) {
    && (forall i, j :: 0 <= i < j < |order| ==> order[i] != order[j])
    && (forall k :: k in order <==> k in keys)
  }

  lemma WalkWithout<K(!new)>(order: seq<K>, keys: set<K>, i: nat)
    requires Walk(order, keys) && i < |order|
    ensures Walk(order[..i] + order[i + 1..], keys - {order[i]})
  {
    var p := order[..i] + order[i + 1..];
    forall x | x in keys && x != order[i]
      ensures x in p
    {
      var j :| 0 <= j < |order| && order[j] == x;
      assert p[if j < i then j else j - 1] == x;
    }
    forall x | x in p
      ensures x in keys && x != order[i]
    {
      var j :| 0 <= j < |p| && p[j] == x;
      assert x == order[if j < i then j else j + 1];
    }
  }

  lemma WalkInit<K(!new)>(order: seq<K>, keys: set<K>)
    requires Walk(order, keys) && order != []
    ensures Walk(order[..|order| - 1], keys - {order[|order| - 1]})
    ensures order[|order| - 1] in keys
  {
    var n := |order| - 1;
    assert order == order[..n] + [order[n]];
  }
}
