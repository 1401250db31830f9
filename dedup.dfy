/** The duplicate filter at the end of parsePacket: entry i of a packet is
    delivered only when no later entry has the same key. */
module Dedup {

  /** No entry after i has the key of entry i: the inner loop finds no duplicate. */
  predicate IsLast<T, K(==)>(s: seq<T>, key: T -> K, i: nat)
    requires i < |s|
  {
    forall j :: i < j < |s| ==> key(s[j]) != key(s[i])
  }

  /** The indices below n that survive, in ascending order. */
  function Kept<T, K(==)>(s: seq<T>, key: T -> K, n: nat): (r: seq<nat>)
    requires n <= |s|
    ensures forall k :: 0 <= k < |r| ==> r[k] < n
    ensures forall k, l :: 0 <= k < l < |r| ==> r[k] < r[l]
    ensures forall i :: 0 <= i < n ==> (i in r <==> IsLast(s, key, i))
    decreases n
  {
    if n == 0 then []
    else Kept(s, key, n - 1) + (if IsLast(s, key, n - 1) then [n - 1] else [])
  }

  /** The entries at the given indices, in the order of the indices. */
  function Pick<T>(s: seq<T>, idx: seq<nat>): (r: seq<T>)
    requires forall k :: 0 <= k < |idx| ==> idx[k] < |s|
    ensures |r| == |idx| && forall k :: 0 <= k < |idx| ==> r[k] == s[idx[k]]
  {
    if idx == [] then [] else Pick(s, idx[..|idx| - 1]) + [s[idx[|idx| - 1]]]
  }

  /** The entries the filter delivers, in packet order. */
  function Survivors<T, K(==)>(s: seq<T>, key: T -> K): seq<T>
  {
    Pick(s, Kept(s, key, |s|))
  }

  /** The nested loop of parsePacket: for each i, look for a later j with
      the same key, and deliver entry i when there is none. */
  method DeliverSurvivors<T, K(==)>(s: seq<T>, key: T -> K) returns (delivered: seq<T>)
    ensures delivered == Survivors(s, key)
  {
    delivered := [];
    for i := 0 to |s|
      invariant delivered == Pick(s, Kept(s, key, i))
    {
      var isDuplicate := HasLaterDuplicate(s, key, i);
      DeliverStep(s, key, i);
      if !isDuplicate {
        delivered := delivered + [s[i]];
      }
    }
  }

  /** The inner loop of the filter: is there an entry after i with the key of entry i? */
  method HasLaterDuplicate<T, K(==)>(s: seq<T>, key: T -> K, i: nat) returns (isDuplicate: bool)
    requires i < |s|
    ensures isDuplicate <==> !IsLast(s, key, i)
  {
    isDuplicate := false;
    var j := i + 1;
    while j < |s|
      invariant i + 1 <= j <= |s|
      invariant isDuplicate <==> exists k :: i < k < j && key(s[k]) == key(s[i])
      decreases |s| - j
    {
      if key(s[i]) == key(s[j]) {
        isDuplicate := true;
        break;
      }
      j := j + 1;
    }
  }

  /** One turn of the outer loop: entry i is appended exactly when it is the last of its key. */
  lemma DeliverStep<T, K>(s: seq<T>, key: T -> K, i: nat)
    requires i < |s|
    ensures Pick(s, Kept(s, key, i + 1)) == Pick(s, Kept(s, key, i)) + (if IsLast(s, key, i) then [s[i]] else [])
  {
    var k := Kept(s, key, i);
    if IsLast(s, key, i) {
      assert Kept(s, key, i + 1) == k + [i];
      assert (k + [i])[..|k|] == k;
    } else {
      assert Kept(s, key, i + 1) == k + [];
      assert k + [] == k;
    }
  }

  /** Survivors have pairwise different keys. */
  lemma SurvivorKeysDistinct<T, K>(s: seq<T>, key: T -> K)
    ensures var r := Kept(s, key, |s|);
      forall k, l :: 0 <= k < l < |r| ==> key(s[r[k]]) != key(s[r[l]])
  {
    var r := Kept(s, key, |s|);
    forall k, l | 0 <= k < l < |r| ensures key(s[r[k]]) != key(s[r[l]]) {
      assert r[k] in r;
      assert IsLast(s, key, r[k]);
    }
  }

  /** Every key that occurs in the packet is delivered once, by its last
      occurrence, which is at or after any other occurrence. */
  lemma {:induction false} LastOccurrenceSurvives<T, K>(s: seq<T>, key: T -> K, i: nat)
    requires i < |s|
    ensures exists j :: i <= j < |s| && key(s[j]) == key(s[i]) && j in Kept(s, key, |s|)
    decreases |s| - i
  {
    if IsLast(s, key, i) {
      assert i in Kept(s, key, |s|);
    } else {
      var j :| i < j < |s| && key(s[j]) == key(s[i]);
      LastOccurrenceSurvives(s, key, j);
    }
  }

  /** Of k identical entries, exactly one is delivered. */
  lemma IdenticalEntries<T, K>(x: T, k: nat, key: T -> K)
    requires k >= 1
    ensures Kept(seq(k, _ => x), key, k) == [k - 1]
    ensures Survivors(seq(k, _ => x), key) == [x]
  {
    var s := seq(k, _ => x);
    forall i | 0 <= i < k - 1 ensures !IsLast(s, key, i) {
      assert key(s[k - 1]) == key(s[i]);
    }
    NoneKept(s, key, k - 1);
    assert IsLast(s, key, k - 1);
    assert Kept(s, key, k) == [k - 1];
    assert Pick(s, [k - 1]) == [s[k - 1]];
  }

  lemma {:induction false} NoneKept<T, K>(s: seq<T>, key: T -> K, n: nat)
    requires n <= |s|
    requires forall i :: 0 <= i < n ==> !IsLast(s, key, i)
    ensures Kept(s, key, n) == []
  {
    if n > 0 {
      NoneKept(s, key, n - 1);
      assert !IsLast(s, key, n - 1);
      assert Kept(s, key, n) == Kept(s, key, n - 1) + [];
    }
  }
}
