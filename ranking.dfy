/**
 * `results.sort(key=lambda x: x[score], reverse=True)`: Python's sort is
 * stable also when reversed, so entries with equal scores keep their order.
 * Modelled as an insertion sort on values.
 */
module Ranking {
  import opened Profiles

  /** Non-increasing scores. */
  ghost predicate SortedDesc(s: seq<Scored>) {
    forall i, j | 0 <= i < j < |s| :: s[i].score >= s[j].score
  }

  /** The entries of `s` whose score is exactly `v`, in order. */
  function WithScore(s: seq<Scored>, v: real): seq<Scored>
    decreases |s|
  {
    if s == [] then [] else (if s[0].score == v then [s[0]] else []) + WithScore(s[1..], v)
  }

  /** Put `x` before the first entry whose score is not greater than its own. */
  function Insert(x: Scored, s: seq<Scored>): seq<Scored>
    decreases |s|
  {
    if s == [] || x.score >= s[0].score then [x] + s else [s[0]] + Insert(x, s[1..])
  }

  function SortByScore(s: seq<Scored>): seq<Scored>
    decreases |s|
  {
    if s == [] then [] else Insert(s[0], SortByScore(s[1..]))
  }

  lemma {:induction false} InsertPermutation(x: Scored, s: seq<Scored>)
    ensures multiset(Insert(x, s)) == multiset([x] + s)
    decreases |s|
  {
    if s != [] && x.score < s[0].score {
      InsertPermutation(x, s[1..]);
      assert s == [s[0]] + s[1..];
      assert multiset(Insert(x, s)) == multiset([s[0]]) + multiset(Insert(x, s[1..]));
    }
  }

  lemma {:induction false} InsertSorted(x: Scored, s: seq<Scored>)
    requires SortedDesc(s)
    ensures SortedDesc(Insert(x, s))
    decreases |s|
  {
    if s != [] && x.score < s[0].score {
      InsertSorted(x, s[1..]);
      var r := Insert(x, s[1..]);
      // r starts with x or with s[1], both scored at most s[0], and r is sorted
      assert r[0] == x || r[0] == s[1];
      assert Insert(x, s) == [s[0]] + r;
      forall i, j | 0 <= i < j < |[s[0]] + r| ensures ([s[0]] + r)[i].score >= ([s[0]] + r)[j].score {
        if i == 0 {
          assert r[j - 1].score <= r[0].score;
        }
      }
    }
  }

  /** The sort orders by non-increasing score. */
  lemma {:induction false} SortSorted(s: seq<Scored>)
    ensures SortedDesc(SortByScore(s))
    decreases |s|
  {
    if s != [] {
      SortSorted(s[1..]);
      InsertSorted(s[0], SortByScore(s[1..]));
    }
  }

  /** The sort only reorders. */
  lemma {:induction false} SortPermutation(s: seq<Scored>)
    ensures multiset(SortByScore(s)) == multiset(s)
    decreases |s|
  {
    if s != [] {
      SortPermutation(s[1..]);
      InsertPermutation(s[0], SortByScore(s[1..]));
      assert s == [s[0]] + s[1..];
    }
  }

  lemma WithScoreCons(y: Scored, t: seq<Scored>, v: real)
    ensures WithScore([y] + t, v) == (if y.score == v then [y] else []) + WithScore(t, v)
  {
    assert ([y] + t)[1..] == t;
  }

  lemma {:induction false} InsertStable(x: Scored, s: seq<Scored>, v: real)
    ensures WithScore(Insert(x, s), v) == (if x.score == v then [x] else []) + WithScore(s, v)
    decreases |s|
  {
    if s != [] && x.score < s[0].score {
      InsertStable(x, s[1..], v);
      WithScoreCons(s[0], Insert(x, s[1..]), v);
    } else {
      WithScoreCons(x, s, v);
    }
  }

  /** Stability: among entries with equal scores the input order is kept. */
  lemma {:induction false} SortStable(s: seq<Scored>, v: real)
    ensures WithScore(SortByScore(s), v) == WithScore(s, v)
    decreases |s|
  {
    if s != [] {
      SortStable(s[1..], v);
      InsertStable(s[0], SortByScore(s[1..]), v);
    }
  }

  lemma DistinctCons(x: Scored, s: seq<Scored>)
    ensures DistinctIds([x] + s) <==> DistinctIds(s) && forall y | y in s :: IdOf(y) != IdOf(x)
  {
    var t := [x] + s;
    assert forall i | 0 <= i < |s| :: t[i + 1] == s[i];
    if DistinctIds(s) && forall y | y in s :: IdOf(y) != IdOf(x) {
      forall i, j | 0 <= i < j < |t| ensures IdOf(t[i]) != IdOf(t[j]) {
        if i == 0 {
          assert t[j] == s[j - 1];
        }
      }
    }
    if DistinctIds(t) {
      forall y | y in s ensures IdOf(y) != IdOf(x) {
        var j :| 0 <= j < |s| && s[j] == y;
        assert t[0] == x && t[j + 1] == y;
        assert IdOf(t[0]) != IdOf(t[j + 1]);
      }
    }
  }

  lemma {:induction false} InsertDistinct(x: Scored, s: seq<Scored>)
    requires DistinctIds(s)
    requires forall y | y in s :: IdOf(y) != IdOf(x)
    ensures DistinctIds(Insert(x, s))
    decreases |s|
  {
    if s != [] && x.score < s[0].score {
      DistinctCons(s[0], s[1..]);
      assert s == [s[0]] + s[1..];
      InsertDistinct(x, s[1..]);
      InsertPermutation(x, s[1..]);
      forall y | y in Insert(x, s[1..]) ensures IdOf(y) != IdOf(s[0]) {
        assert y in multiset([x] + s[1..]);
      }
      DistinctCons(s[0], Insert(x, s[1..]));
    } else {
      DistinctCons(x, s);
    }
  }

  /** The sort keeps candidate ids distinct. */
  lemma {:induction false} SortDistinct(s: seq<Scored>)
    requires DistinctIds(s)
    ensures DistinctIds(SortByScore(s))
    decreases |s|
  {
    if s != [] {
      DistinctCons(s[0], s[1..]);
      assert s == [s[0]] + s[1..];
      SortDistinct(s[1..]);
      SortPermutation(s[1..]);
      forall y | y in SortByScore(s[1..]) ensures IdOf(y) != IdOf(s[0]) {
        assert y in multiset(s[1..]);
      }
      InsertDistinct(s[0], SortByScore(s[1..]));
    }
  }
}
