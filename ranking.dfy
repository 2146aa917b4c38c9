/**
  Grouped counts and their ranking: pandas' `value_counts()`, a
  `groupby(...).apply(...)` sum, `sort_values(ascending=False)` and
  `head(n)`, written out as tally, descending sort and prefix.
*/
module Ranking {
  import opened Seqs

  /** One row of a result table: a label and its count. */
  datatype Entry<K> = Entry(key: K, count: nat)

  /** The labels of a result table, in table order. */
  function Keys<K>(r: seq<Entry<K>>): (ks: seq<K>)
    ensures |ks| == |r| && forall i :: 0 <= i < |r| ==> ks[i] == r[i].key
  {
    seq(|r|, i requires 0 <= i < |r| => r[i].key)
  }

  /** Sum of the counts of a result table. */
  function Total<K>(r: seq<Entry<K>>): nat {
    if r == [] then 0 else r[0].count + Total(r[1..])
  }

  /** Counts never increase along the table. */
  ghost predicate NonIncreasing<K>(r: seq<Entry<K>>) {
    forall i, j :: 0 <= i < j < |r| ==> r[i].count >= r[j].count
  }

  /** Each label of `ks` with its number of occurrences in `xs`. */
  function Tally<K(==)>(ks: seq<K>, xs: seq<K>): (r: seq<Entry<K>>)
    ensures |r| == |ks|
    ensures forall i :: 0 <= i < |r| ==> r[i].key == ks[i] && r[i].count == multiset(xs)[ks[i]]
  {
    if ks == [] then [] else [Entry(ks[0], Count(xs, ks[0]))] + Tally(ks[1..], xs)
  }

  /** Adding one row to the counted column raises the total of a tally over
      distinct labels by one exactly when the row's label is tallied. */
  lemma {:induction false} TallyTotalCons<K>(ks: seq<K>, x: K, xs: seq<K>)
    requires NoDup(ks)
    ensures Total(Tally(ks, [x] + xs)) == Total(Tally(ks, xs)) + (if x in ks then 1 else 0)
  {
    if ks != [] {
      assert NoDup(ks[1..]) by {
        forall i, j | 0 <= i < j < |ks[1..]| ensures ks[1..][i] != ks[1..][j] {
          assert ks[1..][i] == ks[i + 1] && ks[1..][j] == ks[j + 1];
        }
      }
      TallyTotalCons(ks[1..], x, xs);
      assert ks == [ks[0]] + ks[1..];
      assert x == ks[0] ==> x !in ks[1..];
      assert multiset([x] + xs) == multiset{x} + multiset(xs);
    }
  }

  /** A tally over distinct labels that cover every row counts every row once. */
  lemma {:induction false} TallyTotal<K>(ks: seq<K>, xs: seq<K>)
    requires NoDup(ks) && forall x :: x in xs ==> x in ks
    ensures Total(Tally(ks, xs)) == |xs|
  {
    if xs == [] {
      TallyOfNothing(ks);
    } else {
      assert xs == [xs[0]] + xs[1..];
      TallyTotal(ks, xs[1..]);
      TallyTotalCons(ks, xs[0], xs[1..]);
    }
  }

  lemma {:induction false} TallyOfNothing<K>(ks: seq<K>)
    ensures Total(Tally(ks, [])) == 0
  {
    if ks != [] {
      TallyOfNothing(ks[1..]);
    }
  }

  /** `e` placed in the non-increasing `s` before the first entry whose count
      is not larger, i.e. after every entry with a larger count. */
  function InsertDesc<K>(e: Entry<K>, s: seq<Entry<K>>): (r: seq<Entry<K>>)
    requires NonIncreasing(s)
    ensures NonIncreasing(r)
    ensures multiset(r) == multiset(s) + multiset{e}
  {
    if s == [] || s[0].count <= e.count then
      ConsNonIncreasing(e, s);
      [e] + s
    else
      assert s == [s[0]] + s[1..];
      var rest := InsertDesc(e, s[1..]);
      forall k | 0 <= k < |rest| ensures rest[k].count <= s[0].count {
        assert rest[k] in multiset(rest);
        if rest[k] != e {
          assert rest[k] in s[1..];
        }
      }
      ConsNonIncreasing(s[0], rest);
      [s[0]] + rest
  }

  /** An entry whose count is at least every count of a non-increasing table
      can head it. */
  lemma ConsNonIncreasing<K>(e: Entry<K>, s: seq<Entry<K>>)
    requires NonIncreasing(s) && forall k :: 0 <= k < |s| ==> s[k].count <= e.count
    ensures NonIncreasing([e] + s)
  {
    forall i, j | 0 <= i < j < |[e] + s| ensures ([e] + s)[i].count >= ([e] + s)[j].count {
      assert ([e] + s)[j] == s[j - 1];
    }
  }

  /** `sort_values(ascending=False)`: the same entries with counts in
      non-increasing order. */
  function SortDesc<K>(s: seq<Entry<K>>): (r: seq<Entry<K>>)
    ensures NonIncreasing(r)
    ensures multiset(r) == multiset(s)
  {
    if s == [] then []
    else
      assert s == [s[0]] + s[1..];
      InsertDesc(s[0], SortDesc(s[1..]))
  }

  /** `head(n)`: the first `n` rows, or all of them if there are fewer. */
  function Take<T>(s: seq<T>, n: nat): (r: seq<T>)
    ensures |r| == if |s| < n then |s| else n
    ensures forall i :: 0 <= i < |r| ==> r[i] == s[i]
  {
    if |s| < n then s else s[..n]
  }

  /** `r` is a correct top-`n` table of the labels in `labels` scored by
      `score`: at most `n` rows, distinct labels drawn from `labels`, each
      with its own score, in non-increasing order, and every label left out
      scores no more than the last row (and is left out only when the table
      is full). */
  ghost predicate IsTopN<K(!new)>(r: seq<Entry<K>>, labels: seq<K>, score: K -> nat, n: nat) {
    && |r| <= n
    && (forall i :: 0 <= i < |r| ==> r[i].key in labels && r[i].count == score(r[i].key))
    && (forall i, j :: 0 <= i < j < |r| ==> r[i].key != r[j].key)
    && NonIncreasing(r)
    && (forall k :: k in labels && k !in Keys(r) ==> |r| == n && (n > 0 ==> score(k) <= r[n - 1].count))
  }

  /** With two labels of different scores and room for more than two rows,
      a correct top-`n` table is fixed: both labels, the higher score first. */
  lemma TopNOfTwo<K(!new)>(r: seq<Entry<K>>, labels: seq<K>, score: K -> nat, n: nat, a: K, b: K)
    requires IsTopN(r, labels, score, n) && n > 2
    requires a != b && (forall k :: k in labels <==> k == a || k == b)
    requires score(a) > score(b)
    ensures r == [Entry(a, score(a)), Entry(b, score(b))]
  {
    assert a in labels && b in labels;
    assert forall i :: 0 <= i < |r| ==> r[i].key == a || r[i].key == b;
    TwoKeysRepeat(r, a, b);
    assert |r| <= 2;
    assert a in Keys(r) && b in Keys(r);
    assert |r| == 2 && r[0].key == a && r[1].key == b;
  }

  /** Among three rows whose labels are `a` or `b`, two share a label. */
  lemma TwoKeysRepeat<K>(r: seq<Entry<K>>, a: K, b: K)
    ensures |r| > 2 && (forall i :: 0 <= i < |r| ==> r[i].key == a || r[i].key == b) ==>
      r[0].key == r[1].key || r[0].key == r[2].key || r[1].key == r[2].key
  {
  }

  /** The `n` labels of `labels` occurring most often in `xs`, with their
      counts, largest first. */
  function TopCounts<K(==,!new)>(labels: seq<K>, xs: seq<K>, n: nat): (r: seq<Entry<K>>)
    ensures IsTopN(r, labels, k => Count(xs, k), n)
  {
    var d := Distinct(labels);
    var t := Tally(d, xs);
    var s := SortDesc(t);
    TopCountsCorrect(labels, xs, n, d, t, s, k => Count(xs, k));
    Take(s, n)
  }

  lemma TopCountsCorrect<K(!new)>(labels: seq<K>, xs: seq<K>, n: nat, d: seq<K>, t: seq<Entry<K>>, s: seq<Entry<K>>,
                                  score: K -> nat)
    requires NoDup(d) && forall k :: k in d <==> k in labels
    requires t == Tally(d, xs) && NonIncreasing(s) && multiset(s) == multiset(t)
    requires forall k :: score(k) == Count(xs, k)
    ensures IsTopN(Take(s, n), labels, score, n)
  {
    TopRowsAreTallied(labels, xs, n, d, t, s);
    TopRowsLeaveOutLess(labels, xs, n, d, t, s);
    TakeNonIncreasing(s, n);
  }

  /** A prefix of a non-increasing table is non-increasing. */
  lemma TakeNonIncreasing<K>(s: seq<Entry<K>>, n: nat)
    requires NonIncreasing(s)
    ensures NonIncreasing(Take(s, n))
  {
    var r := Take(s, n);
    forall i, j | 0 <= i < j < |r| ensures r[i].count >= r[j].count {
      assert r[i] == s[i] && r[j] == s[j];
    }
  }

  lemma TopRowsAreTallied<K(!new)>(labels: seq<K>, xs: seq<K>, n: nat, d: seq<K>, t: seq<Entry<K>>, s: seq<Entry<K>>)
    requires NoDup(d) && forall k :: k in d <==> k in labels
    requires t == Tally(d, xs) && multiset(s) == multiset(t)
    ensures var r := Take(s, n);
      && (forall i :: 0 <= i < |r| ==> r[i].key in labels && r[i].count == Count(xs, r[i].key))
      && (forall i, j :: 0 <= i < j < |r| ==> r[i].key != r[j].key)
  {
    SortedTallyRows(d, xs, t, s);
    assert forall i :: 0 <= i < |Take(s, n)| ==> Take(s, n)[i] == s[i] && s[i] in s;
  }

  lemma TopRowsLeaveOutLess<K(!new)>(labels: seq<K>, xs: seq<K>, n: nat, d: seq<K>, t: seq<Entry<K>>, s: seq<Entry<K>>)
    requires forall k :: k in d <==> k in labels
    requires t == Tally(d, xs) && NonIncreasing(s) && multiset(s) == multiset(t)
    ensures var r := Take(s, n);
      forall k :: k in labels && k !in Keys(r) ==> |r| == n && (n > 0 ==> Count(xs, k) <= r[n - 1].count)
  {
    forall k | k in labels && k !in Keys(Take(s, n))
      ensures |Take(s, n)| == n && (n > 0 ==> Count(xs, k) <= Take(s, n)[n - 1].count)
    {
      LeftOutLabel(d, xs, t, s, n, k);
    }
  }

  /** The rows of a sorted tally are rows of the tally: distinct labels, each
      with its count. */
  lemma SortedTallyRows<K(!new)>(d: seq<K>, xs: seq<K>, t: seq<Entry<K>>, s: seq<Entry<K>>)
    requires NoDup(d) && t == Tally(d, xs) && multiset(s) == multiset(t)
    ensures forall e :: e in s ==> e.key in d && e.count == Count(xs, e.key)
    ensures forall i, j :: 0 <= i < j < |s| ==> s[i].key != s[j].key
  {
    forall e | e in s ensures e.key in d && e.count == Count(xs, e.key) {
      assert e in multiset(t);
      assert e in t;
    }
    NoDupPermutation(t, s);
    forall i, j | 0 <= i < j < |s| ensures s[i].key != s[j].key {
      assert s[i] in s && s[j] in s;
    }
  }

  /** A label of the tally missing from the first `n` sorted rows sits at or
      after position `n`, so the prefix is full and its last count is at
      least the label's count. */
  lemma LeftOutLabel<K(!new)>(d: seq<K>, xs: seq<K>, t: seq<Entry<K>>, s: seq<Entry<K>>, n: nat, k: K)
    requires t == Tally(d, xs) && NonIncreasing(s) && multiset(s) == multiset(t)
    requires k in d && k !in Keys(Take(s, n))
    ensures |Take(s, n)| == n && (n > 0 ==> Count(xs, k) <= Take(s, n)[n - 1].count)
  {
    var r := Take(s, n);
    var i :| 0 <= i < |d| && d[i] == k;
    var e := t[i];
    assert e in multiset(s);
    var j :| 0 <= j < |s| && s[j] == e;
  }
}
