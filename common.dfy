/** Shared vocabulary of the model: optional values, results of calls that can
    throw, `slice(0, n)`, and the insertion-ordered counting dictionary that the
    application builds twice with `counts[k] = (counts[k] || 0) + 1`. */
module Common {

  datatype Option<T> = None | Some(value: T)

  /** The outcome of a call that either returns a value or throws. */
  datatype Result<T> = Ok(value: T) | Err(message: string)

  /** `s.slice(0, n)`: the first `n` elements, or all of them. */
  function Take<T>(s: seq<T>, n: nat): (r: seq<T>)
    ensures |r| == if |s| < n then |s| else n
    ensures r <= s
  {
    if |s| <= n then s else s[..n]
  }

  /** One key of a counting dictionary with its count. */
  datatype Entry = Entry(key: string, count: nat)

  /** `k in counts`: the position of the entry holding `k`, if any. */
  function KeyIndex(es: seq<Entry>, k: string): (r: Option<nat>)
    ensures r.Some? ==> r.value < |es| && es[r.value].key == k
    ensures r.Some? ==> forall j :: 0 <= j < r.value ==> es[j].key != k
    ensures r.None? <==> !HasKey(es, k)
    decreases |es|
  {
    if es == [] then None
    else if es[0].key == k then Some(0)
    else match KeyIndex(es[1..], k)
      case None => None
      case Some(i) => Some(i + 1)
  }

  /** `counts[k] = (counts[k] || 0) + 1` on a dictionary whose keys keep
      their insertion order (as a JavaScript object's string keys do). */
  function Bump(es: seq<Entry>, k: string): seq<Entry>
  {
    match KeyIndex(es, k)
    case None => es + [Entry(k, 1)]
    case Some(i) => es[i := es[i].(count := es[i].count + 1)]
  }

  /** The dictionary obtained by counting `ks` from left to right. */
  function Tally(ks: seq<string>): seq<Entry>
    decreases |ks|
  {
    if ks == [] then [] else Bump(Tally(ks[..|ks| - 1]), ks[|ks| - 1])
  }

  /** How often `k` occurs in `ks`: the reference for every count. */
  function Occurrences(ks: seq<string>, k: string): nat
    decreases |ks|
  {
    if ks == [] then 0
    else Occurrences(ks[..|ks| - 1], k) + (if ks[|ks| - 1] == k then 1 else 0)
  }

  function SumCounts(es: seq<Entry>): nat
    decreases |es|
  {
    if es == [] then 0 else es[0].count + SumCounts(es[1..])
  }

  predicate HasKey(es: seq<Entry>, k: string)
  {
    exists j :: 0 <= j < |es| && es[j].key == k
  }

  predicate DistinctKeys(es: seq<Entry>)
  {
    forall i, j :: 0 <= i < j < |es| ==> es[i].key != es[j].key
  }

  lemma {:induction false} SumCountsAppend(es: seq<Entry>, e: Entry)
    ensures SumCounts(es + [e]) == SumCounts(es) + e.count
    decreases |es|
  {
    if es != [] {
      assert (es + [e])[1..] == es[1..] + [e];
      SumCountsAppend(es[1..], e);
    }
  }

  lemma {:induction false} SumCountsIncrement(es: seq<Entry>, i: nat)
    requires i < |es|
    ensures SumCounts(es[i := es[i].(count := es[i].count + 1)]) == SumCounts(es) + 1
    decreases |es|
  {
    if i > 0 {
      assert es[i := es[i].(count := es[i].count + 1)][1..] == es[1..][i - 1 := es[1..][i - 1].(count := es[1..][i - 1].count + 1)];
      SumCountsIncrement(es[1..], i - 1);
    }
  }

  /** Counting once more increases the total by exactly one. */
  lemma BumpSum(es: seq<Entry>, k: string)
    ensures SumCounts(Bump(es, k)) == SumCounts(es) + 1
  {
    match KeyIndex(es, k)
    case None => SumCountsAppend(es, Entry(k, 1));
    case Some(i) => SumCountsIncrement(es, i);
  }

  /** Counting a key keeps every key once. */
  lemma BumpDistinct(es: seq<Entry>, k: string)
    requires DistinctKeys(es)
    ensures DistinctKeys(Bump(es, k))
  {
  }

  /** The counting dictionary is what a reference count says it is: each key
      once, exactly the keys counted, each count the number of occurrences,
      and the counts add up to the number of keys counted. */
  lemma TallyFacts(ks: seq<string>)
    ensures DistinctKeys(Tally(ks))
    ensures forall k :: HasKey(Tally(ks), k) <==> k in ks
    ensures forall j :: 0 <= j < |Tally(ks)| ==> Tally(ks)[j].count == Occurrences(ks, Tally(ks)[j].key)
    ensures SumCounts(Tally(ks)) == |ks|
  {
    TallyDistinct(ks);
    TallyKeys(ks);
    TallyCounts(ks);
    TallySum(ks);
  }

  lemma {:induction false} TallyDistinct(ks: seq<string>)
    ensures DistinctKeys(Tally(ks))
    decreases |ks|
  {
    if ks != [] {
      TallyDistinct(ks[..|ks| - 1]);
      BumpDistinct(Tally(ks[..|ks| - 1]), ks[|ks| - 1]);
    }
  }

  lemma {:induction false} TallySum(ks: seq<string>)
    ensures SumCounts(Tally(ks)) == |ks|
    decreases |ks|
  {
    if ks != [] {
      TallySum(ks[..|ks| - 1]);
      BumpSum(Tally(ks[..|ks| - 1]), ks[|ks| - 1]);
    }
  }

  /** Bumping `x` adds `x` to the keys and changes no other key. */
  lemma BumpKeys(es: seq<Entry>, x: string)
    ensures forall k :: HasKey(Bump(es, x), k) <==> HasKey(es, k) || k == x
  {
    var r := Bump(es, x);
    assert |r| >= |es|;
    assert forall j :: 0 <= j < |es| ==> r[j].key == es[j].key;
    forall k ensures HasKey(r, k) <==> HasKey(es, k) || k == x {
      if HasKey(r, k) {
        var j :| 0 <= j < |r| && r[j].key == k;
        if j < |es| { assert es[j].key == k; }
      }
      if HasKey(es, k) {
        var j :| 0 <= j < |es| && es[j].key == k;
        assert r[j].key == k;
      }
      if k == x {
        match KeyIndex(es, x)
        case None => assert r[|es|].key == x;
        case Some(i) => assert r[i].key == x;
      }
    }
  }

  lemma {:induction false} TallyKeys(ks: seq<string>)
    ensures forall k :: HasKey(Tally(ks), k) <==> k in ks
    decreases |ks|
  {
    if ks != [] {
      var p, x := ks[..|ks| - 1], ks[|ks| - 1];
      assert ks == p + [x];
      TallyKeys(p);
      BumpKeys(Tally(p), x);
    }
  }

  /** The keys in the order of their first occurrence in `ks`. */
  function FirstSeen(ks: seq<string>): seq<string>
    decreases |ks|
  {
    if ks == [] then []
    else FirstSeen(ks[..|ks| - 1]) + (if ks[|ks| - 1] in ks[..|ks| - 1] then [] else [ks[|ks| - 1]])
  }

  /** `Object.keys(counts)`. */
  function Keys(es: seq<Entry>): (r: seq<string>)
    ensures |r| == |es| && forall j :: 0 <= j < |es| ==> r[j] == es[j].key
  {
    seq(|es|, j requires 0 <= j < |es| => es[j].key)
  }

  /** The counting dictionary lists its keys in the order they first occur. */
  lemma {:induction false} TallyKeyOrder(ks: seq<string>)
    ensures Keys(Tally(ks)) == FirstSeen(ks)
    decreases |ks|
  {
    if ks != [] {
      var p, x := ks[..|ks| - 1], ks[|ks| - 1];
      TallyKeyOrder(p);
      TallyKeys(p);
      var t := Tally(p);
      var r := Tally(ks);
      match KeyIndex(t, x)
      case None =>
        assert x !in p;
        assert Keys(r) == Keys(t) + [x];
      case Some(i) =>
        assert x in p;
        assert Keys(r) == Keys(t);
    }
  }

  lemma {:induction false} TallyCounts(ks: seq<string>)
    ensures forall j :: 0 <= j < |Tally(ks)| ==> Tally(ks)[j].count == Occurrences(ks, Tally(ks)[j].key)
    decreases |ks|
  {
    if ks != [] {
      var p, x := ks[..|ks| - 1], ks[|ks| - 1];
      assert ks == p + [x];
      TallyCounts(p);
      TallyKeys(p);
      TallyDistinct(p);
      var t := Tally(p);
      var r := Tally(ks);
      forall j | 0 <= j < |r| ensures r[j].count == Occurrences(ks, r[j].key) {
        assert Occurrences(ks, r[j].key) == Occurrences(p, r[j].key) + (if x == r[j].key then 1 else 0);
        match KeyIndex(t, x)
        case None =>
          if j == |t| {
            assert x !in p;
            OccurrencesAbsent(p, x);
          } else {
            assert r[j] == t[j];
            assert HasKey(t, t[j].key);
          }
        case Some(i) =>
          if j != i {
            assert r[j] == t[j];
            assert t[j].key != t[i].key;
          }
      }
    }
  }

  lemma {:induction false} OccurrencesAbsent(ks: seq<string>, k: string)
    requires k !in ks
    ensures Occurrences(ks, k) == 0
    decreases |ks|
  {
    if ks != [] {
      assert ks[|ks| - 1] != k;
      assert forall i :: 0 <= i < |ks| - 1 ==> ks[..|ks| - 1][i] == ks[i];
      OccurrencesAbsent(ks[..|ks| - 1], k);
    }
  }
}
