/** `sorted()` applied to the keys of a dictionary: the keys as a list in
    ascending string order. */
module SortedKeys {
  import opened StringOrder

  /** Every element comes strictly before every later one, so the list is
      ascending and has no duplicates. */
  predicate StrictlyAscending(r: seq<string>)
  {
    forall i, j :: 0 <= i < j < |r| ==> Below(r[i], r[j])
  }

  /** `k` is the smallest element of `s`. */
  predicate IsSmallest(k: string, s: set<string>)
  {
    k in s && forall x :: x in s && x != k ==> Below(k, x)
  }

  lemma {:induction false} SmallestExists(s: set<string>)
    requires s != {}
    ensures exists k :: IsSmallest(k, s)
    decreases |s|
  {
    var y :| y in s;
    var rest := s - {y};
    if rest == {} {
      assert forall x :: x in s && x != y ==> x in rest;
      assert IsSmallest(y, s);
    } else {
      SmallestExists(rest);
      var k :| IsSmallest(k, rest);
      if Below(y, k) {
        forall x | x in s && x != y
          ensures Below(y, x)
        {
          if x != k {
            BelowTransitive(y, k, x);
          }
        }
        assert IsSmallest(y, s);
      } else {
        BelowTotal(y, k);
        assert IsSmallest(k, s);
      }
    }
  }

  /** The keys of a dictionary in ascending order: the smallest key first,
      then the rest sorted. */
  function Sorted(s: set<string>): (r: seq<string>)
    ensures |r| == |s|
    ensures forall k :: k in r <==> k in s
    ensures StrictlyAscending(r)
    decreases |s|
  {
    if s == {} then []
    else
      SmallestExists(s);
      SmallestUnique(s);
      var k :| IsSmallest(k, s);
      var rest := Sorted(s - {k});
      PrependSmallest(k, s, rest);
      [k] + rest
  }

  lemma SmallestUnique(s: set<string>)
    ensures forall k, k' :: IsSmallest(k, s) && IsSmallest(k', s) ==> k == k'
  {
    forall k, k' | IsSmallest(k, s) && IsSmallest(k', s)
      ensures k == k'
    {
      if k != k' {
        BelowAsymmetric(k, k');
      }
    }
  }

  /** Putting the smallest key in front of the sorted remaining keys keeps
      the list ascending. */
  lemma PrependSmallest(k: string, s: set<string>, rest: seq<string>)
    requires IsSmallest(k, s)
    requires StrictlyAscending(rest)
    requires forall x :: x in rest <==> x in s - {k}
    ensures StrictlyAscending([k] + rest)
    ensures forall x :: x in [k] + rest <==> x in s
  {
    var r := [k] + rest;
    forall i, j | 0 <= i < j < |r|
      ensures Below(r[i], r[j])
    {
      if i == 0 {
        assert r[j] == rest[j - 1];
        assert r[j] in s - {k};
      } else {
        assert r[i] == rest[i - 1] && r[j] == rest[j - 1];
      }
    }
  }

  /** Two strictly ascending lists with the same elements are equal. */
  lemma {:induction false} AscendingUnique(r1: seq<string>, r2: seq<string>)
    requires StrictlyAscending(r1) && StrictlyAscending(r2)
    requires forall k :: k in r1 <==> k in r2
    ensures r1 == r2
    decreases |r1|
  {
    DistinctCardinality(r1);
    DistinctCardinality(r2);
    assert (set x | x in r1) == (set x | x in r2);
    if r1 != [] {
      assert r1[0] in r2;
      assert r2 != [];
      assert r2[0] in r1;
      var j :| 0 <= j < |r1| && r1[j] == r2[0];
      var j' :| 0 <= j' < |r2| && r2[j'] == r1[0];
      if j != 0 && j' != 0 {
        BelowAsymmetric(r1[0], r2[0]);
        assert false;
      }
      assert r1[0] == r2[0];
      forall k
        ensures k in r1[1..] <==> k in r2[1..]
      {
        if k in r1[1..] {
          var i :| 1 <= i < |r1| && r1[i] == k;
          BelowIrreflexive(k);
          assert k != r1[0];
          assert k in r2;
        }
        if k in r2[1..] {
          var i :| 1 <= i < |r2| && r2[i] == k;
          BelowIrreflexive(k);
          assert k != r2[0];
          assert k in r1;
        }
      }
      AscendingUnique(r1[1..], r2[1..]);
      assert r1 == [r1[0]] + r1[1..] && r2 == [r2[0]] + r2[1..];
    }
  }

  /** `Sorted(s)` is the one strictly ascending arrangement of `s`: any list
      that holds exactly the keys, ascending without repeats, is it. */
  lemma SortedIsUnique(s: set<string>, r: seq<string>)
    requires StrictlyAscending(r)
    requires forall k :: k in r <==> k in s
    ensures r == Sorted(s)
  {
    AscendingUnique(r, Sorted(s));
  }

  /** Position `i` of the sorted list holds the key that has exactly `i`
      keys below it. */
  lemma SortedRank(s: set<string>, i: nat)
    requires i < |s|
    ensures |set x | x in s && Below(x, Sorted(s)[i])| == i
  {
    RankInAscending(s, Sorted(s), i);
  }

  lemma RankInAscending(s: set<string>, r: seq<string>, i: nat)
    requires StrictlyAscending(r)
    requires forall k :: k in r <==> k in s
    requires i < |r|
    ensures |set x | x in s && Below(x, r[i])| == i
  {
    var lower := set x | x in s && Below(x, r[i]);
    var prefix := r[..i];
    forall x | x in lower
      ensures x in prefix
    {
      assert x in r;
      var j :| 0 <= j < |r| && r[j] == x;
      if j > i {
        BelowAsymmetric(r[i], r[j]);
      } else if j == i {
        BelowIrreflexive(x);
      }
      assert prefix[j] == x;
    }
    forall x | x in prefix
      ensures x in lower
    {
      var j :| 0 <= j < i && prefix[j] == x;
      assert r[j] == x;
    }
    assert lower == set x | x in prefix;
    assert StrictlyAscending(prefix);
    DistinctCardinality(prefix);
    assert |lower| == |prefix| == i;
    assert (set x | x in s && Below(x, r[i])) == lower;
  }

  /** A list without repeats holds as many different keys as it is long. */
  lemma {:induction false} DistinctCardinality(q: seq<string>)
    requires StrictlyAscending(q)
    ensures |set x | x in q| == |q|
  {
    if q == [] {
      assert (set x | x in q) == {};
    } else {
      var init := q[..|q| - 1];
      var last := q[|q| - 1];
      assert StrictlyAscending(init);
      DistinctCardinality(init);
      assert q == init + [last];
      assert (set x | x in q) == (set x | x in init) + {last};
      if last in init {
        var j :| 0 <= j < |init| && init[j] == last;
        assert Below(q[j], q[|q| - 1]);
        BelowIrreflexive(last);
      }
    }
  }
}
