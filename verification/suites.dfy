/**
  Small facts about sequences and sets, stated once so that the proofs
  that need them call them instead of rediscovering them.
*/
module Suites {
  lemma Associe<T>(a: seq<T>, b: seq<T>, c: seq<T>)
    ensures a + b + c == a + (b + c)
  {
  }

  lemma PrefixeSuivant<T>(s: seq<T>, i: nat)
    requires i < |s|
    ensures s[..i + 1] == s[..i] + [s[i]]
  {
  }

  lemma SansRien<T>(s: seq<T>, e: set<T>)
    ensures s + [] == s && e + {} == e
  {
  }

  lemma Prefixes<T>(s: seq<T>)
    ensures s[..0] == [] && s[..|s|] == s
  {
  }

  lemma UnionAssocie<T>(a: set<T>, b: set<T>, c: set<T>)
    ensures a + b + c == a + (b + c)
  {
  }

  /** The elements of a list, as a set. */
  function Ensemble<T(!new)>(s: seq<T>): (r: set<T>)
    ensures forall x :: x in r <==> x in s
  {
    if s == [] then {}
    else
      assert forall x | x in s :: x in s[..|s| - 1] || x == s[|s| - 1];
      Ensemble(s[..|s| - 1]) + {s[|s| - 1]}
  }

  lemma EnsemblePas<T(!new)>(n: seq<T>, a: T)
    ensures Ensemble(n + [a]) == Ensemble(n) + {a}
  {
    assert (n + [a])[..|n|] == n;
  }

  /** Removing two key sets one after the other removes their union. */
  lemma MoinsDeux<K, V>(m: map<K, V>, a: set<K>, b: set<K>)
    ensures (m - a) - b == m - (a + b)
  {
    assert ((m - a) - b).Keys == (m - (a + b)).Keys;
  }
}
