/** The order in which a .NET dictionary yields its keys is unspecified; the
    model takes that order as an input and only asks that it lists every key
    exactly once. */
module Enumeration {

  /** `keys` lists every element of `domain` exactly once. */
  predicate IsEnumeration(keys: seq<int>, domain: set<int>) {
    && (forall i, j :: 0 <= i < j < |keys| ==> keys[i] != keys[j])
    && (forall i :: 0 <= i < |keys| ==> keys[i] in domain)
    && (forall k :: k in domain ==> k in keys)
  }

  /** Taking the first key off an enumeration enumerates the rest of the domain. */
  lemma EnumerationTail(keys: seq<int>, domain: set<int>)
    requires IsEnumeration(keys, domain) && keys != []
    ensures keys[0] in domain
    ensures IsEnumeration(keys[1..], domain - {keys[0]})
  {
    forall k | k in domain - {keys[0]}
      ensures k in keys[1..]
    {
      var i :| 0 <= i < |keys| && keys[i] == k;
      assert i != 0;
      assert keys[1..][i - 1] == k;
    }
  }

  /** An enumeration is empty exactly when its domain is. */
  lemma EnumerationEmpty(keys: seq<int>, domain: set<int>)
    requires IsEnumeration(keys, domain)
    ensures keys == [] <==> domain == {}
  {
    if keys == [] {
      assert forall k :: k !in domain;
    } else {
      assert keys[0] in domain;
    }
  }
}
