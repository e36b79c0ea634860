/**
 * Frequency tables: a map from a counted key to its number of occurrences,
 * built one key at a time the way HashMap.merge(key, 1, Integer::sum) (and an
 * equivalent get/put) builds it, together with the sum and the size the
 * metrics read back.
 */
module FrequencyTable {

  type Table = map<string, int>

  /** HashMap.merge(key, 1, Integer::sum): start a key at 1, otherwise add 1. */
  function Merge(m: Table, key: string): (r: Table)
    ensures r.Keys == m.Keys + {key}
    ensures r[key] == (if key in m then m[key] else 0) + 1
    ensures forall k :: k in m && k != key ==> r[k] == m[k]
  {
    m[key := if key in m then m[key] + 1 else 1]
  }

  /** The table after merging the keys of s into m, first to last. */
  function MergeAll(m: Table, s: seq<string>): Table
  {
    if s == [] then m else Merge(MergeAll(m, s[..|s| - 1]), s[|s| - 1])
  }

  /** The table a fresh, empty map becomes after merging the keys of s. */
  function Tally(s: seq<string>): Table
  {
    MergeAll(map[], s)
  }

  /** The distinct keys of a sequence. */
  function Elements(s: seq<string>): set<string>
  {
    set i | 0 <= i < |s| :: s[i]
  }

  /** Merging a + b is merging a, then b. */
  lemma {:induction false} MergeAllConcat(m: Table, a: seq<string>, b: seq<string>)
    ensures MergeAll(m, a + b) == MergeAll(MergeAll(m, a), b)
    decreases |b|
  {
    if b == [] {
      assert a + b == a;
    } else {
      var b' := b[..|b| - 1];
      assert (a + b)[..|a + b| - 1] == a + b';
      assert (a + b)[|a + b| - 1] == b[|b| - 1];
      MergeAllConcat(m, a, b');
    }
  }

  /**
   * After merging s into m, a key is present exactly when it was present or
   * occurs in s, and its count grew by its number of occurrences in s.
   */
  lemma {:induction false} MergeAllCounts(m: Table, s: seq<string>, k: string)
    ensures k in MergeAll(m, s) <==> k in m || k in multiset(s)
    ensures k in MergeAll(m, s) ==>
              MergeAll(m, s)[k] == (if k in m then m[k] else 0) + multiset(s)[k]
    decreases |s|
  {
    if s != [] {
      var s' := s[..|s| - 1];
      assert s == s' + [s[|s| - 1]];
      assert multiset(s) == multiset(s') + multiset{s[|s| - 1]};
      MergeAllCounts(m, s', k);
    }
  }

  /**
   * Tally counts: its keys are the keys occurring in s, each mapped to its
   * number of occurrences, which is at least 1.
   */
  lemma TallyCounts(s: seq<string>, k: string)
    ensures k in Tally(s) <==> k in multiset(s)
    ensures k in Tally(s) ==> Tally(s)[k] == multiset(s)[k] >= 1
  {
    MergeAllCounts(map[], s, k);
  }

  /** The keys of a tally are the distinct elements of the sequence. */
  lemma TallyKeys(s: seq<string>)
    ensures Tally(s).Keys == Elements(s)
  {
    forall k ensures k in Tally(s) <==> k in Elements(s) {
      TallyCounts(s, k);
      assert k in multiset(s) <==> k in s;
    }
  }

  /**
   * The tally depends only on how often each key occurs, not on the order
   * in which the keys were merged.
   */
  lemma TallyOrderIndependent(s: seq<string>, t: seq<string>)
    requires multiset(s) == multiset(t)
    ensures Tally(s) == Tally(t)
  {
    forall k ensures k in Tally(s) <==> k in Tally(t) {
      TallyCounts(s, k);
      TallyCounts(t, k);
    }
    forall k | k in Tally(s) ensures Tally(s)[k] == Tally(t)[k] {
      TallyCounts(s, k);
      TallyCounts(t, k);
    }
  }

  /** Some element of a non-empty set: the order a HashMap iterates in is not known. */
  ghost function Pick(keys: set<string>): (k: string)
    requires keys != {}
    ensures k in keys
  {
    var k :| k in keys; k
  }

  /** The sum of the counts of the given keys. */
  ghost function SumOver(keys: set<string>, m: Table): int
    requires keys <= m.Keys
    decreases keys
  {
    if keys == {} then 0
    else var k := Pick(keys); m[k] + SumOver(keys - {k}, m)
  }

  /** The sum of all counts in a table. */
  ghost function SumValues(m: Table): int
  {
    SumOver(m.Keys, m)
  }

  /** The sum may be taken by removing any key first, whichever the iteration meets first. */
  lemma {:induction false} SumOverRemove(keys: set<string>, m: Table, k: string)
    requires keys <= m.Keys && k in keys
    ensures SumOver(keys, m) == m[k] + SumOver(keys - {k}, m)
    decreases keys
  {
    var j := Pick(keys);
    if j != k {
      SumOverRemove(keys - {j}, m, k);
      SumOverRemove(keys - {k}, m, j);
      assert keys - {j} - {k} == keys - {k} - {j};
    }
  }

  /** The sum over keys only depends on the counts of those keys. */
  lemma {:induction false} SumOverAgree(keys: set<string>, m: Table, m': Table)
    requires keys <= m.Keys && keys <= m'.Keys
    requires forall k :: k in keys ==> m[k] == m'[k]
    ensures SumOver(keys, m) == SumOver(keys, m')
    decreases keys
  {
    if keys != {} {
      SumOverAgree(keys - {Pick(keys)}, m, m');
    }
  }

  /** Merging one key raises the sum of all counts by exactly one. */
  lemma SumValuesMerge(m: Table, key: string)
    ensures SumValues(Merge(m, key)) == SumValues(m) + 1
  {
    var r := Merge(m, key);
    var rest := m.Keys - {key};
    assert r.Keys - {key} == rest;
    SumOverRemove(r.Keys, r, key);
    SumOverAgree(rest, r, m);
    if key in m {
      SumOverRemove(m.Keys, m, key);
    } else {
      assert m.Keys == rest;
    }
  }

  /** The counts of a tally add up to the length of the sequence. */
  lemma {:induction false} TallySum(s: seq<string>)
    ensures SumValues(Tally(s)) == |s|
    decreases |s|
  {
    if s != [] {
      TallySum(s[..|s| - 1]);
      SumValuesMerge(Tally(s[..|s| - 1]), s[|s| - 1]);
    }
  }

  /** Counts of at least 1 add up to at least the number of keys. */
  lemma {:induction false} SumOverAtLeastSize(keys: set<string>, m: Table)
    requires keys <= m.Keys
    requires forall k :: k in keys ==> m[k] >= 1
    ensures SumOver(keys, m) >= |keys|
    decreases keys
  {
    if keys != {} {
      SumOverAtLeastSize(keys - {Pick(keys)}, m);
    }
  }
}
