/** `AISuggestions`: the rule-based suggestion generator and the choice
    between its list and the list a language model returned. Items are
    represented by their names; the month and the model's reply are inputs. */
module Suggestions {
  import opened Common
  import opened Text

  datatype Kind = Ai | Complementary | Seasonal | Frequent | Essential

  datatype Suggestion = Suggestion(name: string, reason: string, kind: Kind, priority: int)

  /** One key of a lookup table with the list it maps to. */
  datatype Pairing = Pairing(key: string, items: seq<string>)

  /** `s.toLowerCase()` for every name. */
  function Lowered(xs: seq<string>): (r: seq<string>)
    ensures |r| == |xs| && forall i :: 0 <= i < |xs| ==> r[i] == ToLower(xs[i])
  {
    seq(|xs|, i requires 0 <= i < |xs| => ToLower(xs[i]))
  }

  /** The names of `list`, each made a suggestion with the same reason,
      kind and priority. */
  function Described(list: seq<string>, reason: string, kind: Kind, priority: int): (r: seq<Suggestion>)
    ensures |r| == |list|
    ensures forall i :: 0 <= i < |list| ==> r[i] == Suggestion(list[i], reason, kind, priority)
  {
    seq(|list|, i requires 0 <= i < |list| => Suggestion(list[i], reason, kind, priority))
  }

  // ---------------------------------------------------------------------
  // getComplementaryItems
  // ---------------------------------------------------------------------

  /** `complementaryMap`, in the order of its keys. */
  const ComplementaryMap: seq<Pairing> := [
    Pairing("milk", ["cereal", "cookies", "coffee"]),
    Pairing("bread", ["butter", "jam", "lunch meat"]),
    Pairing("pasta", ["pasta sauce", "parmesan cheese", "garlic"]),
    Pairing("chicken", ["vegetables", "rice", "seasoning"])]

  /** The complements of `key` not already listed, in table order. */
  function Picks(key: string, complements: seq<string>, names: seq<string>): seq<Suggestion>
    decreases |complements|
  {
    if complements == [] then []
    else
      var last := complements[|complements| - 1];
      Picks(key, complements[..|complements| - 1], names) +
      (if last in names then [] else [Suggestion(last, "Goes well with " + key, Complementary, 2)])
  }

  /** What one current name contributes: the picks of every key it includes. */
  function MatchesFor(item: string, table: seq<Pairing>, names: seq<string>): seq<Suggestion>
    decreases |table|
  {
    if table == [] then []
    else
      var p := table[|table| - 1];
      MatchesFor(item, table[..|table| - 1], names) +
      (if Contains(item, p.key) then Picks(p.key, p.items, names) else [])
  }

  /** Everything the nested loops of `getComplementaryItems` push, in order. */
  function Candidates(current: seq<string>, table: seq<Pairing>, names: seq<string>): seq<Suggestion>
    decreases |current|
  {
    if current == [] then []
    else Candidates(current[..|current| - 1], table, names) + MatchesFor(current[|current| - 1], table, names)
  }

  /** The value of `getComplementaryItems(currentNames)`. */
  function ComplementarySuggestions(names: seq<string>): seq<Suggestion>
  {
    Take(Candidates(names, ComplementaryMap, names), 3)
  }

  lemma {:induction false} PicksFacts(key: string, complements: seq<string>, names: seq<string>)
    ensures forall s :: s in Picks(key, complements, names) <==>
      s.name in complements && s.name !in names &&
      s.reason == "Goes well with " + key && s.kind == Complementary && s.priority == 2
    decreases |complements|
  {
    if complements != [] {
      var p := complements[..|complements| - 1];
      PicksFacts(key, p, names);
      assert complements == p + [complements[|complements| - 1]];
    }
  }

  lemma {:induction false} MatchesForFacts(item: string, table: seq<Pairing>, names: seq<string>)
    ensures forall s :: s in MatchesFor(item, table, names) <==>
      exists p :: p in table && Contains(item, p.key) && s in Picks(p.key, p.items, names)
    decreases |table|
  {
    if table != [] {
      var t := table[..|table| - 1];
      MatchesForFacts(item, t, names);
      assert table == t + [table[|table| - 1]];
    }
  }

  lemma {:induction false} CandidatesFacts(current: seq<string>, table: seq<Pairing>, names: seq<string>)
    ensures forall s :: s in Candidates(current, table, names) <==>
      exists c :: c in current && s in MatchesFor(c, table, names)
    decreases |current|
  {
    if current != [] {
      var p, last := current[..|current| - 1], current[|current| - 1];
      CandidatesFacts(p, table, names);
      assert current == p + [last];
      forall s ensures s in Candidates(current, table, names) <==>
        exists c :: c in current && s in MatchesFor(c, table, names)
      {
        if exists c :: c in current && s in MatchesFor(c, table, names) {
          var c :| c in current && s in MatchesFor(c, table, names);
          if c != last {
            assert c in p;
          }
        }
      }
    }
  }

  /** Every candidate is a complement, not listed, of a key that some
      current name includes. */
  lemma CandidatesSound(current: seq<string>, table: seq<Pairing>, names: seq<string>, s: Suggestion)
    requires s in Candidates(current, table, names)
    ensures s.name !in names && s.kind == Complementary && s.priority == 2
    ensures exists p, c :: (p in table && c in current && Contains(c, p.key) &&
      s.name in p.items && s.reason == "Goes well with " + p.key)
  {
    CandidatesFacts(current, table, names);
    var c :| c in current && s in MatchesFor(c, table, names);
    MatchesForFacts(c, table, names);
    var p :| p in table && Contains(c, p.key) && s in Picks(p.key, p.items, names);
    PicksFacts(p.key, p.items, names);
  }

  /** Every complement, not listed, of a key that some current name
      includes is a candidate. */
  lemma CandidatesComplete(current: seq<string>, table: seq<Pairing>, names: seq<string>, p: Pairing, c: string, x: string)
    requires p in table && c in current && Contains(c, p.key) && x in p.items && x !in names
    ensures Suggestion(x, "Goes well with " + p.key, Complementary, 2) in Candidates(current, table, names)
  {
    var s := Suggestion(x, "Goes well with " + p.key, Complementary, 2);
    PicksFacts(p.key, p.items, names);
    assert s in Picks(p.key, p.items, names);
    MatchesForFacts(c, table, names);
    assert s in MatchesFor(c, table, names);
    CandidatesFacts(current, table, names);
  }

  /** A complementary suggestion is never a listed name and always comes
      from a key that some listed name includes; conversely every such
      complement is suggested when fewer than three are. */
  lemma ComplementaryCharacterised(names: seq<string>)
    ensures |ComplementarySuggestions(names)| <= 3
    ensures forall s :: s in ComplementarySuggestions(names) ==>
      s.name !in names && s.kind == Complementary && s.priority == 2 &&
      exists p, c :: (p in ComplementaryMap && c in names && Contains(c, p.key) &&
        s.name in p.items && s.reason == "Goes well with " + p.key)
    ensures forall p, c, x :: (p in ComplementaryMap && c in names && Contains(c, p.key) &&
      x in p.items && x !in names && |ComplementarySuggestions(names)| < 3) ==>
      Suggestion(x, "Goes well with " + p.key, Complementary, 2) in ComplementarySuggestions(names)
  {
    var table := ComplementaryMap;
    var all := Candidates(names, table, names);
    var r := ComplementarySuggestions(names);
    forall s | s in r
      ensures s.name !in names && s.kind == Complementary && s.priority == 2 &&
        exists p, c :: (p in table && c in names && Contains(c, p.key) &&
          s.name in p.items && s.reason == "Goes well with " + p.key)
    {
      var i :| 0 <= i < |r| && r[i] == s;
      assert all[i] == s;
      CandidatesSound(names, table, names, s);
    }
    forall p, c, x | p in table && c in names && Contains(c, p.key) && x in p.items && x !in names && |r| < 3
      ensures Suggestion(x, "Goes well with " + p.key, Complementary, 2) in r
    {
      assert r == all;
      CandidatesComplete(names, table, names, p, c, x);
    }
  }

  /** The `complements.forEach(...)` callback run over one key's
      complements: push each one that is not a current name. */
  method PushComplements(suggestions: seq<Suggestion>, key: string, complements: seq<string>,
                         currentNames: seq<string>) returns (pushed: seq<Suggestion>)
    ensures pushed == suggestions + Picks(key, complements, currentNames)
  {
    pushed := suggestions;
    var m := 0;
    while m < |complements|
      invariant 0 <= m <= |complements|
      invariant pushed == suggestions + Picks(key, complements[..m], currentNames)
    {
      assert complements[..m + 1][..m] == complements[..m];
      var complement := complements[m];
      if complement !in currentNames {
        pushed := pushed + [Suggestion(complement, "Goes well with " + key, Complementary, 2)];
      }
      m := m + 1;
    }
    assert complements[..|complements|] == complements;
  }

  /** The loop over `Object.entries(complementaryMap)` for one current
      name: push the complements of every key the name includes. */
  method PushMatches(suggestions: seq<Suggestion>, currentItem: string, table: seq<Pairing>,
                     currentNames: seq<string>) returns (pushed: seq<Suggestion>)
    ensures pushed == suggestions + MatchesFor(currentItem, table, currentNames)
  {
    pushed := suggestions;
    var j := 0;
    while j < |table|
      invariant 0 <= j <= |table|
      invariant pushed == suggestions + MatchesFor(currentItem, table[..j], currentNames)
    {
      assert table[..j + 1][..j] == table[..j];
      var entry := table[j];
      if Contains(currentItem, entry.key) {
        pushed := PushComplements(pushed, entry.key, entry.items, currentNames);
      }
      j := j + 1;
    }
    assert table[..|table|] == table;
  }

  /** `getComplementaryItems(currentNames)`: for each current name, for each
      key it includes, push each complement that is not a current name;
      then keep the first three. */
  method GetComplementaryItems(currentNames: seq<string>) returns (r: seq<Suggestion>)
    ensures r == ComplementarySuggestions(currentNames)
  {
    var suggestions: seq<Suggestion> := [];
    var i := 0;
    while i < |currentNames|
      invariant 0 <= i <= |currentNames|
      invariant suggestions == Candidates(currentNames[..i], ComplementaryMap, currentNames)
    {
      assert currentNames[..i + 1][..i] == currentNames[..i];
      suggestions := PushMatches(suggestions, currentNames[i], ComplementaryMap, currentNames);
      i := i + 1;
    }
    assert currentNames[..|currentNames|] == currentNames;
    r := Take(suggestions, 3);
  }

  // ---------------------------------------------------------------------
  // getCurrentSeason, getSeasonalSuggestions
  // ---------------------------------------------------------------------

  /** `getCurrentSeason()` for a zero-based month number. */
  function CurrentSeason(month: int): string
  {
    if 2 <= month <= 4 then "spring"
    else if 5 <= month <= 7 then "summer"
    else if 8 <= month <= 10 then "fall"
    else "winter"
  }

  const Seasons: seq<string> := ["spring", "summer", "fall", "winter"]

  /** Each season holds three consecutive months, spring starting in
      March (month 2), and winter wraps around the new year. */
  lemma SeasonsAreThreeMonths(month: int)
    requires 0 <= month < 12
    ensures CurrentSeason(month) == Seasons[((month + 10) % 12) / 3]
  {
  }

  /** `getSeasonalItems()`. */
  const SeasonalItems: seq<Pairing> := [
    Pairing("spring", ["asparagus", "strawberries", "peas"]),
    Pairing("summer", ["tomatoes", "corn", "watermelon"]),
    Pairing("fall", ["pumpkins", "apples", "squash"]),
    Pairing("winter", ["citrus fruits", "root vegetables", "cabbage"])]

  /** `table[key] || []`. */
  function ItemsOf(table: seq<Pairing>, key: string): (r: seq<string>)
    ensures (forall p :: p in table ==> p.key != key) ==> r == []
    decreases |table|
  {
    if table == [] then []
    else if table[0].key == key then table[0].items
    else ItemsOf(table[1..], key)
  }

  /** A key that is held yields the items of its first holder. */
  lemma {:induction false} ItemsOfFirstHolder(table: seq<Pairing>, key: string, i: nat)
    requires i < |table| && table[i].key == key
    requires forall j :: 0 <= j < i ==> table[j].key != key
    ensures ItemsOf(table, key) == table[i].items
    decreases i
  {
    if i > 0 {
      assert table[0].key != key;
      forall j | 0 <= j < i - 1 ensures table[1..][j].key != key {
        assert table[1..][j] == table[j + 1];
      }
      ItemsOfFirstHolder(table[1..], key, i - 1);
    }
  }

  /** The value of `getSeasonalSuggestions()` in the given month. */
  function SeasonalSuggestions(month: int): seq<Suggestion>
  {
    var season := CurrentSeason(month);
    Described(Take(ItemsOf(SeasonalItems, season), 2), season + " seasonal item", Seasonal, 3)
  }

  /** Every season has a list, so the suggestions are always the first two
      items of the current season's list. */
  lemma SeasonalAreFirstTwoOfSeason(month: int)
    ensures var season := CurrentSeason(month);
      var r := SeasonalSuggestions(month);
      |ItemsOf(SeasonalItems, season)| == 3 && |r| == 2 &&
      forall i :: 0 <= i < 2 ==>
        r[i].name == ItemsOf(SeasonalItems, season)[i] &&
        r[i].reason == season + " seasonal item" && r[i].kind == Seasonal && r[i].priority == 3
  {
  }

  // ---------------------------------------------------------------------
  // getFrequentItems
  // ---------------------------------------------------------------------

  /** `.filter(([name, count]) => count >= 2 && !currentNames.includes(name))`. */
  function Eligible(es: seq<Entry>, names: seq<string>): seq<Entry>
    decreases |es|
  {
    if es == [] then []
    else
      var e := es[|es| - 1];
      Eligible(es[..|es| - 1], names) + (if e.count >= 2 && e.key !in names then [e] else [])
  }

  lemma {:induction false} EligibleFacts(es: seq<Entry>, names: seq<string>)
    ensures forall e :: e in Eligible(es, names) <==> e in es && e.count >= 2 && e.key !in names
    ensures DistinctKeys(es) ==> DistinctKeys(Eligible(es, names))
    decreases |es|
  {
    if es != [] {
      var p, x := es[..|es| - 1], es[|es| - 1];
      assert es == p + [x];
      EligibleFacts(p, names);
      if DistinctKeys(es) {
        assert DistinctKeys(p);
        var r := Eligible(es, names);
        forall i, j | 0 <= i < j < |r| ensures r[i].key != r[j].key {
          if j == |r| - 1 && x in r[j..] && x.count >= 2 && x.key !in names {
            assert r[i] in Eligible(p, names);
            var m :| 0 <= m < |p| && p[m] == r[i];
            assert es[m] == r[i];
          }
        }
      }
    }
  }

  predicate SortedDesc(s: seq<Entry>)
  {
    forall i, j :: 0 <= i < j < |s| ==> s[i].count >= s[j].count
  }

  /** Insert `e` after every entry counted at least as often, so that equal
      counts keep their original order. */
  function InsertDesc(s: seq<Entry>, e: Entry): seq<Entry>
    decreases |s|
  {
    if s == [] then [e]
    else if s[|s| - 1].count >= e.count then s + [e]
    else InsertDesc(s[..|s| - 1], e) + [s[|s| - 1]]
  }

  /** `.sort(([, a], [, b]) => b - a)`: a stable sort by count, highest first. */
  function SortDesc(es: seq<Entry>): seq<Entry>
    decreases |es|
  {
    if es == [] then [] else InsertDesc(SortDesc(es[..|es| - 1]), es[|es| - 1])
  }

  lemma {:induction false} InsertDescMultiset(s: seq<Entry>, e: Entry)
    ensures multiset(InsertDesc(s, e)) == multiset(s) + multiset{e}
    decreases |s|
  {
    if s != [] && s[|s| - 1].count < e.count {
      var p := s[..|s| - 1];
      assert s == p + [s[|s| - 1]];
      InsertDescMultiset(p, e);
    }
  }

  /** A lower bound on every count survives the insertion. */
  lemma {:induction false} InsertDescBound(s: seq<Entry>, e: Entry, b: int)
    requires forall i :: 0 <= i < |s| ==> s[i].count >= b
    requires e.count >= b
    ensures forall i :: 0 <= i < |InsertDesc(s, e)| ==> InsertDesc(s, e)[i].count >= b
    decreases |s|
  {
    if s != [] && s[|s| - 1].count < e.count {
      InsertDescBound(s[..|s| - 1], e, b);
    }
  }

  lemma {:induction false} InsertDescSorted(s: seq<Entry>, e: Entry)
    requires SortedDesc(s)
    ensures SortedDesc(InsertDesc(s, e))
    decreases |s|
  {
    if s != [] && s[|s| - 1].count < e.count {
      var p, last := s[..|s| - 1], s[|s| - 1];
      InsertDescSorted(p, e);
      InsertDescBound(p, e, last.count);
    }
  }

  lemma InsertDescFacts(s: seq<Entry>, e: Entry)
    requires SortedDesc(s)
    ensures multiset(InsertDesc(s, e)) == multiset(s) + multiset{e}
    ensures SortedDesc(InsertDesc(s, e))
  {
    InsertDescMultiset(s, e);
    InsertDescSorted(s, e);
  }

  lemma {:induction false} InsertDescDistinct(s: seq<Entry>, e: Entry)
    requires SortedDesc(s) && DistinctKeys(s) && !HasKey(s, e.key)
    ensures DistinctKeys(InsertDesc(s, e))
    decreases |s|
  {
    if s == [] {
    } else if s[|s| - 1].count >= e.count {
      var r := s + [e];
      forall i, j | 0 <= i < j < |r| ensures r[i].key != r[j].key {
        if j == |s| {
          assert r[i] == s[i];
        }
      }
    } else {
      var p, last := s[..|s| - 1], s[|s| - 1];
      assert s == p + [last];
      assert !HasKey(p, e.key);
      InsertDescDistinct(p, e);
      InsertDescFacts(p, e);
      var q := InsertDesc(p, e);
      var r := q + [last];
      forall i, j | 0 <= i < j < |r| ensures r[i].key != r[j].key {
        if j == |r| - 1 {
          assert r[i] == q[i] && q[i] in multiset(q);
          if q[i] != e {
            assert q[i] in multiset(p);
            var m :| 0 <= m < |p| && p[m] == q[i];
            assert s[m] == q[i];
          } else {
            assert s[|s| - 1].key == last.key;
          }
        } else {
          assert r[i] == q[i] && r[j] == q[j];
        }
      }
    }
  }

  /** The sort is a permutation, ordered by count, and keeps keys distinct. */
  lemma {:induction false} SortDescFacts(es: seq<Entry>)
    ensures multiset(SortDesc(es)) == multiset(es)
    ensures SortedDesc(SortDesc(es))
    ensures DistinctKeys(es) ==> DistinctKeys(SortDesc(es))
    decreases |es|
  {
    if es != [] {
      var p, x := es[..|es| - 1], es[|es| - 1];
      assert es == p + [x];
      SortDescFacts(p);
      InsertDescFacts(SortDesc(p), x);
      if DistinctKeys(es) {
        assert DistinctKeys(p);
        var q := SortDesc(p);
        forall m | 0 <= m < |q| ensures q[m].key != x.key {
          assert q[m] in multiset(p);
          var n :| 0 <= n < |p| && p[n] == q[m];
          assert es[n] == q[m];
        }
        InsertDescDistinct(q, x);
      }
    }
  }

  /** `.map(([name, count]) => ...)` on the chosen entries. */
  function FrequentFrom(es: seq<Entry>): (r: seq<Suggestion>)
    ensures |r| == |es|
    ensures forall i :: 0 <= i < |es| ==>
      r[i].name == es[i].key && r[i].reason == FrequentReason(es[i].count) && r[i].kind == Frequent && r[i].priority == 2
  {
    seq(|es|, i requires 0 <= i < |es| => Suggestion(es[i].key, FrequentReason(es[i].count), Frequent, 2))
  }

  /** `Frequently purchased (${count} times)`. */
  function FrequentReason(count: nat): string
  {
    "Frequently purchased (" + NatToString(count) + " times)"
  }

  /** The entries `getFrequentItems` keeps, most frequent first. */
  function FrequentChoice(history: seq<string>, names: seq<string>): seq<Entry>
  {
    Take(SortDesc(Eligible(Tally(Lowered(history)), names)), 2)
  }

  /** The value of `getFrequentItems(userHistory, currentNames)`. */
  function FrequentSuggestions(history: seq<string>, names: seq<string>): seq<Suggestion>
  {
    FrequentFrom(FrequentChoice(history, names))
  }

  /** The entries of the sorted eligible list are the history names bought at
      least twice and not listed, each with its number of purchases. */
  lemma SortedEligibleFacts(history: seq<string>, names: seq<string>)
    ensures var h := Lowered(history);
      var s := SortDesc(Eligible(Tally(h), names));
      SortedDesc(s) && DistinctKeys(s) &&
      (forall e :: e in s ==> e.key in h && e.key !in names && e.count >= 2 && e.count == Occurrences(h, e.key)) &&
      (forall k :: k in h && k !in names && Occurrences(h, k) >= 2 ==> Entry(k, Occurrences(h, k)) in s)
  {
    var h := Lowered(history);
    var t := Tally(h);
    var el := Eligible(t, names);
    TallyFacts(h);
    EligibleFacts(t, names);
    SortDescFacts(el);
    var s := SortDesc(el);
    forall e | e in s ensures e.key in h && e.key !in names && e.count >= 2 && e.count == Occurrences(h, e.key) {
      assert e in multiset(el);
      assert e in t;
      var j :| 0 <= j < |t| && t[j] == e;
      assert HasKey(t, e.key);
    }
    forall k | k in h && k !in names && Occurrences(h, k) >= 2 ensures Entry(k, Occurrences(h, k)) in s {
      assert HasKey(t, k);
      var j :| 0 <= j < |t| && t[j].key == k;
      assert t[j] == Entry(k, Occurrences(h, k));
      assert t[j] in el;
      assert t[j] in multiset(s);
    }
  }

  /** At most two suggestions, for names bought at least twice and not
      listed, each reporting its purchase count, distinct, most frequent first. */
  lemma FrequentFacts(history: seq<string>, names: seq<string>)
    ensures var h := Lowered(history);
      var r := FrequentSuggestions(history, names);
      |r| <= 2 &&
      (forall s :: s in r ==>
        s.name !in names && Occurrences(h, s.name) >= 2 && s.kind == Frequent && s.priority == 2 &&
        s.reason == FrequentReason(Occurrences(h, s.name))) &&
      (forall i, j :: 0 <= i < j < |r| ==> r[i].name != r[j].name && Occurrences(h, r[i].name) >= Occurrences(h, r[j].name))
  {
    var h := Lowered(history);
    var s := SortDesc(Eligible(Tally(h), names));
    SortedEligibleFacts(history, names);
    var c := FrequentChoice(history, names);
    var r := FrequentSuggestions(history, names);
    assert forall i :: 0 <= i < |c| ==> c[i] == s[i] && s[i] in s;
    forall x | x in r
      ensures x.name !in names && Occurrences(h, x.name) >= 2 && x.kind == Frequent && x.priority == 2 &&
        x.reason == FrequentReason(Occurrences(h, x.name))
    {
      var i :| 0 <= i < |r| && r[i] == x;
      assert x.name == c[i].key;
    }
  }

  /** In a list sorted by count, an entry outside the first two is
      counted no more often than either of them. */
  lemma TopTwo(s: seq<Entry>, e: Entry)
    requires SortedDesc(s) && e in s && e !in Take(s, 2)
    ensures |Take(s, 2)| == 2
    ensures forall x :: x in Take(s, 2) ==> x.count >= e.count
  {
    var t := Take(s, 2);
    forall x | x in t ensures x.count >= e.count {
      var a :| 0 <= a < |t| && t[a] == x;
      assert s[a] == x;
    }
  }

  /** A name bought at least twice and not listed that is not suggested was
      bought no more often than either suggestion, and two were suggested. */
  lemma FrequentAreTheMostFrequent(history: seq<string>, names: seq<string>, k: string)
    requires k in Lowered(history) && k !in names && Occurrences(Lowered(history), k) >= 2
    requires forall x :: x in FrequentSuggestions(history, names) ==> x.name != k
    ensures |FrequentSuggestions(history, names)| == 2
    ensures forall x :: x in FrequentSuggestions(history, names) ==>
      Occurrences(Lowered(history), x.name) >= Occurrences(Lowered(history), k)
  {
    var h := Lowered(history);
    var s := SortDesc(Eligible(Tally(h), names));
    SortedEligibleFacts(history, names);
    var c := FrequentChoice(history, names);
    var r := FrequentSuggestions(history, names);
    var e := Entry(k, Occurrences(h, k));
    assert e in s;
    forall a | 0 <= a < |c| ensures c[a] != e {
      assert r[a] in r && r[a].name == c[a].key;
    }
    TopTwo(s, e);
    forall x | x in r ensures Occurrences(h, x.name) >= Occurrences(h, k) {
      var a :| 0 <= a < |r| && r[a] == x;
      assert c[a] in c && c[a] in s;
    }
  }

  /** `getFrequentItems(userHistory, currentNames)`: counts the lower-cased
      history names, then filters, sorts, keeps two and describes them. */
  method GetFrequentItems(history: seq<string>, currentNames: seq<string>) returns (r: seq<Suggestion>)
    ensures r == FrequentSuggestions(history, currentNames)
  {
    var itemFrequency: seq<Entry> := [];
    var i := 0;
    while i < |history|
      invariant 0 <= i <= |history|
      invariant itemFrequency == Tally(Lowered(history)[..i])
    {
      assert Lowered(history)[..i + 1][..i] == Lowered(history)[..i];
      itemFrequency := Bump(itemFrequency, ToLower(history[i]));
      i := i + 1;
    }
    assert Lowered(history)[..|history|] == Lowered(history);
    r := FrequentFrom(Take(SortDesc(Eligible(itemFrequency, currentNames)), 2));
  }

  // ---------------------------------------------------------------------
  // getHouseholdEssentials
  // ---------------------------------------------------------------------

  const Essentials: seq<string> := ["toilet paper", "paper towels", "dish soap", "laundry detergent"]

  /** `.filter(item => !currentNames.includes(item))`. */
  function Unlisted(xs: seq<string>, names: seq<string>): seq<string>
    decreases |xs|
  {
    if xs == [] then []
    else Unlisted(xs[..|xs| - 1], names) + (if xs[|xs| - 1] in names then [] else [xs[|xs| - 1]])
  }

  lemma {:induction false} UnlistedFacts(xs: seq<string>, names: seq<string>)
    ensures forall x :: x in Unlisted(xs, names) <==> x in xs && x !in names
    ensures (forall x :: x in xs ==> x !in names) ==> Unlisted(xs, names) == xs
    decreases |xs|
  {
    if xs != [] {
      var p := xs[..|xs| - 1];
      assert xs == p + [xs[|xs| - 1]];
      UnlistedFacts(p, names);
    }
  }

  /** The value of `getHouseholdEssentials(currentNames)`. */
  function HouseholdEssentials(names: seq<string>): seq<Suggestion>
  {
    Described(Take(Unlisted(Essentials, names), 2), "Household essential", Essential, 4)
  }

  /** Of any fixed list, the first two entries that are not listed. */
  lemma FirstTwoUnlisted(xs: seq<string>, names: seq<string>)
    ensures var r := Described(Take(Unlisted(xs, names), 2), "Household essential", Essential, 4);
      var u := Unlisted(xs, names);
      |r| == (if |u| < 2 then |u| else 2) &&
      (forall i :: 0 <= i < |r| ==> r[i].name == u[i]) &&
      (forall s :: s in r ==> (s.name in xs && s.name !in names &&
        s.reason == "Household essential" && s.kind == Essential && s.priority == 4))
  {
    var u := Unlisted(xs, names);
    UnlistedFacts(xs, names);
    var t := Take(u, 2);
    var r := Described(t, "Household essential", Essential, 4);
    assert forall i :: 0 <= i < |t| ==> t[i] == u[i];
    assert forall i :: 0 <= i < |r| ==> r[i].name == t[i];
    forall s | s in r ensures s.name in xs && s.name !in names {
      var i :| 0 <= i < |r| && r[i] == s;
      assert u[i] in u;
    }
  }

  /** At most two essentials, none already listed, taken in the fixed order:
      the first two unlisted ones. */
  lemma EssentialsFacts(names: seq<string>)
    ensures var r := HouseholdEssentials(names);
      var u := Unlisted(Essentials, names);
      |r| == (if |u| < 2 then |u| else 2) &&
      (forall i :: 0 <= i < |r| ==> r[i].name == u[i]) &&
      (forall s :: s in r ==> (s.name in Essentials && s.name !in names &&
        s.reason == "Household essential" && s.kind == Essential && s.priority == 4))
  {
    FirstTwoUnlisted(Essentials, names);
  }

  /** With none of the essentials listed, the first two are suggested. */
  lemma EssentialsWhenNoneListed(names: seq<string>)
    requires forall x :: x in Essentials ==> x !in names
    ensures |HouseholdEssentials(names)| == 2
    ensures HouseholdEssentials(names)[0].name == "toilet paper"
    ensures HouseholdEssentials(names)[1].name == "paper towels"
  {
    UnlistedFacts(Essentials, names);
    assert Unlisted(Essentials, names) == Essentials;
  }

  // ---------------------------------------------------------------------
  // getRuleBasedSuggestions, generateSuggestions
  // ---------------------------------------------------------------------

  /** Some earlier suggestion has the same name, ignoring case. */
  predicate NameSeenBefore(s: seq<Suggestion>, i: nat)
    requires i < |s|
  {
    exists j :: 0 <= j < i && ToLower(s[j].name) == ToLower(s[i].name)
  }

  /** `.filter((item, index, self) => index === self.findIndex(...))`:
      keeps each suggestion whose name, ignoring case, did not occur earlier. */
  function KeepFirst(s: seq<Suggestion>): seq<Suggestion>
    decreases |s|
  {
    if s == [] then []
    else KeepFirst(s[..|s| - 1]) + (if NameSeenBefore(s, |s| - 1) then [] else [s[|s| - 1]])
  }

  /** The first position holding the name of position `i`. */
  lemma {:induction false} FirstWithName(s: seq<Suggestion>, i: nat) returns (j: nat)
    requires i < |s|
    ensures j <= i && ToLower(s[j].name) == ToLower(s[i].name) && !NameSeenBefore(s, j)
    decreases i
  {
    if NameSeenBefore(s, i) {
      var k :| 0 <= k < i && ToLower(s[k].name) == ToLower(s[i].name);
      j := FirstWithName(s, k);
    } else {
      j := i;
    }
  }

  /** Deduplication keeps exactly the first suggestion of every name: the
      kept names are distinct, each kept suggestion is the first of its name,
      and every name occurring is kept. */
  lemma {:induction false} KeepFirstFacts(s: seq<Suggestion>)
    ensures forall x :: x in KeepFirst(s) ==> exists i :: 0 <= i < |s| && s[i] == x && !NameSeenBefore(s, i)
    ensures forall i, j :: 0 <= i < j < |KeepFirst(s)| ==> ToLower(KeepFirst(s)[i].name) != ToLower(KeepFirst(s)[j].name)
    ensures forall i :: 0 <= i < |s| && !NameSeenBefore(s, i) ==> s[i] in KeepFirst(s)
    decreases |s|
  {
    if s != [] {
      var p, x := s[..|s| - 1], s[|s| - 1];
      KeepFirstFacts(p);
      assert forall i :: 0 <= i < |p| ==> p[i] == s[i];
      assert forall i :: 0 <= i < |p| ==> (NameSeenBefore(p, i) <==> NameSeenBefore(s, i));
      var r := KeepFirst(s);
      var q := KeepFirst(p);
      forall y | y in r ensures exists i :: 0 <= i < |s| && s[i] == y && !NameSeenBefore(s, i) {
        if y in q {
          var i :| 0 <= i < |p| && p[i] == y && !NameSeenBefore(p, i);
          assert s[i] == y;
        } else {
          assert y == x && !NameSeenBefore(s, |s| - 1);
        }
      }
      forall i, j | 0 <= i < j < |r| ensures ToLower(r[i].name) != ToLower(r[j].name) {
        if j == |q| {
          assert r[i] == q[i] && q[i] in q;
          var m :| 0 <= m < |p| && p[m] == q[i] && !NameSeenBefore(p, m);
          assert r[j] == x && !NameSeenBefore(s, |s| - 1);
          assert s[m] == r[i];
        } else {
          assert r[i] == q[i] && r[j] == q[j];
        }
      }
    }
  }

  /** The positions of the suggestions whose name did not occur earlier, ascending. */
  function FirstPositions(s: seq<Suggestion>): seq<nat>
    decreases |s|
  {
    if s == [] then []
    else FirstPositions(s[..|s| - 1]) + (if NameSeenBefore(s, |s| - 1) then [] else [|s| - 1])
  }

  /** The first-of-name positions are positions of `s`, ascending. */
  lemma {:induction false} FirstPositionsAscend(s: seq<Suggestion>)
    ensures forall a :: 0 <= a < |FirstPositions(s)| ==> FirstPositions(s)[a] < |s|
    ensures forall a, b :: 0 <= a < b < |FirstPositions(s)| ==> FirstPositions(s)[a] < FirstPositions(s)[b]
    decreases |s|
  {
    if s != [] {
      var p := s[..|s| - 1];
      FirstPositionsAscend(p);
      var fp, fs := FirstPositions(p), FirstPositions(s);
      assert forall a :: 0 <= a < |fp| ==> fs[a] == fp[a];
    }
  }

  /** The first-of-name positions are exactly the positions whose name did
      not occur earlier. */
  lemma {:induction false} FirstPositionsExact(s: seq<Suggestion>)
    ensures forall i :: 0 <= i < |s| ==> (i in FirstPositions(s) <==> !NameSeenBefore(s, i))
    decreases |s|
  {
    if s != [] {
      var p := s[..|s| - 1];
      FirstPositionsExact(p);
      FirstPositionsAscend(p);
      var fp, fs := FirstPositions(p), FirstPositions(s);
      assert |s| - 1 !in fp by {
        forall a | 0 <= a < |fp| ensures fp[a] != |s| - 1 { }
      }
      forall i | 0 <= i < |p| ensures i in fs <==> !NameSeenBefore(s, i) {
        assert NameSeenBefore(p, i) <==> NameSeenBefore(s, i) by {
          assert forall j :: 0 <= j <= i ==> p[j] == s[j];
        }
        assert i in fs <==> i in fp;
      }
    }
  }

  /** Deduplication keeps candidate order: its `a`-th suggestion is the
      candidate at the `a`-th first-of-name position. */
  lemma {:induction false} KeepFirstInOrder(s: seq<Suggestion>)
    ensures |KeepFirst(s)| == |FirstPositions(s)|
    ensures forall a :: 0 <= a < |FirstPositions(s)| ==>
      FirstPositions(s)[a] < |s| && KeepFirst(s)[a] == s[FirstPositions(s)[a]]
    decreases |s|
  {
    if s != [] {
      var p := s[..|s| - 1];
      KeepFirstInOrder(p);
      FirstPositionsAscend(p);
      var fp, fs := FirstPositions(p), FirstPositions(s);
      var kp, ks := KeepFirst(p), KeepFirst(s);
      assert forall a :: 0 <= a < |fp| ==> fs[a] == fp[a] && ks[a] == kp[a] && p[fp[a]] == s[fp[a]];
    }
  }

  /** Every name among the suggestions is kept by the deduplication. */
  lemma KeepFirstCovers(s: seq<Suggestion>, i: nat)
    requires i < |s|
    ensures exists x :: x in KeepFirst(s) && ToLower(x.name) == ToLower(s[i].name)
  {
    var j := FirstWithName(s, i);
    KeepFirstFacts(s);
    assert s[j] in KeepFirst(s);
  }

  /** The suggestions `getRuleBasedSuggestions` deduplicates, in push order. */
  function RuleCandidates(currentItems: seq<string>, history: seq<string>, month: int): seq<Suggestion>
  {
    var names := Lowered(currentItems);
    ComplementarySuggestions(names) + SeasonalSuggestions(month) +
    FrequentSuggestions(history, names) + HouseholdEssentials(names)
  }

  /** The value of `getRuleBasedSuggestions(currentItems, userHistory)`. */
  function RuleBasedSuggestions(currentItems: seq<string>, history: seq<string>, month: int): seq<Suggestion>
  {
    Take(KeepFirst(RuleCandidates(currentItems, history, month)), 6)
  }

  /** Whatever the candidates, the rule-based list holds at most six
      suggestions with distinct names ignoring case, each the first candidate
      of its name; it is shorter than six only when every candidate name is
      among them. */
  lemma TopSixFacts(c: seq<Suggestion>)
    ensures var r := Take(KeepFirst(c), 6);
      |r| <= 6 &&
      (forall i, j :: 0 <= i < j < |r| ==> ToLower(r[i].name) != ToLower(r[j].name)) &&
      (forall x :: x in r ==> exists i :: 0 <= i < |c| && c[i] == x && !NameSeenBefore(c, i)) &&
      (|r| < 6 ==> forall i :: 0 <= i < |c| ==> exists x :: x in r && ToLower(x.name) == ToLower(c[i].name))
  {
    var k := KeepFirst(c);
    var r := Take(k, 6);
    KeepFirstFacts(c);
    assert forall i :: 0 <= i < |r| ==> r[i] == k[i];
    forall x | x in r ensures x in k {
      var i :| 0 <= i < |r| && r[i] == x;
      assert k[i] == x;
    }
    if |r| < 6 {
      assert r == k;
      forall i | 0 <= i < |c| ensures exists x :: x in r && ToLower(x.name) == ToLower(c[i].name) {
        KeepFirstCovers(c, i);
      }
    }
  }

  /** The rule-based list is the first six first-of-name candidates in
      candidate order: its `a`-th suggestion is the candidate at the `a`-th
      first-of-name position, and when six are kept, no first-of-name
      candidate at or before the sixth of them is left out. */
  lemma TopSixInOrder(c: seq<Suggestion>)
    ensures var r, p := Take(KeepFirst(c), 6), FirstPositions(c);
      |r| == (if |p| < 6 then |p| else 6) &&
      (forall a :: 0 <= a < |r| ==> p[a] < |c| && r[a] == c[p[a]]) &&
      (forall a, b :: 0 <= a < b < |r| ==> p[a] < p[b]) &&
      (|r| == 6 ==> forall i :: 0 <= i < |c| && i <= p[5] && !NameSeenBefore(c, i) ==> c[i] in r)
  {
    var r, p := Take(KeepFirst(c), 6), FirstPositions(c);
    KeepFirstInOrder(c);
    FirstPositionsAscend(c);
    FirstPositionsExact(c);
    assert forall a :: 0 <= a < |r| ==> r[a] == KeepFirst(c)[a];
    if |r| == 6 {
      forall i | 0 <= i < |c| && i <= p[5] && !NameSeenBefore(c, i) ensures c[i] in r {
        var m :| 0 <= m < |p| && p[m] == i;
        assert m < 6;
        assert r[m] == c[i];
      }
    }
  }

  /** `getRuleBasedSuggestions(currentItems, userHistory)`. */
  method GetRuleBasedSuggestions(currentItems: seq<string>, history: seq<string>, month: int) returns (r: seq<Suggestion>)
    ensures r == RuleBasedSuggestions(currentItems, history, month)
  {
    var suggestions: seq<Suggestion> := [];
    var currentNames := Lowered(currentItems);
    var complementary := GetComplementaryItems(currentNames);
    suggestions := suggestions + complementary;
    assert suggestions == complementary;
    var seasonal := SeasonalSuggestions(month);
    suggestions := suggestions + seasonal;
    var frequent := GetFrequentItems(history, currentNames);
    suggestions := suggestions + frequent;
    var essentials := HouseholdEssentials(currentNames);
    suggestions := suggestions + essentials;
    r := Take(KeepFirst(suggestions), 6);
  }

  /** One element of the array parsed from the model's reply; "" and 0 stand
      for a missing property. */
  datatype AiItem = AiItem(name: string, reason: string, priority: int)

  /** The shape `getAISuggestions` gives one parsed element. */
  function AiOf(it: AiItem): (s: Suggestion)
    ensures s.name == it.name && s.kind == Ai
    ensures s.reason == (if it.reason == "" then "AI recommendation" else it.reason)
    ensures s.priority == (if it.priority == 0 then 3 else it.priority)
  {
    Suggestion(it.name, if it.reason == "" then "AI recommendation" else it.reason, Ai,
               if it.priority == 0 then 3 else it.priority)
  }

  /** The parsed reply without nameless elements, in the shape of a suggestion. */
  function AiSuggestions(reply: seq<AiItem>): seq<Suggestion>
    decreases |reply|
  {
    if reply == [] then []
    else
      var it := reply[|reply| - 1];
      AiSuggestions(reply[..|reply| - 1]) + (if it.name == "" then [] else [AiOf(it)])
  }

  /** Model suggestions are no more than the reply's elements, each named,
      with a reason and a priority, and named after an element of the reply. */
  lemma {:induction false} AiSuggestionsSound(reply: seq<AiItem>)
    ensures |AiSuggestions(reply)| <= |reply|
    ensures forall s :: s in AiSuggestions(reply) ==>
      s.kind == Ai && s.name != "" && s.reason != "" && s.priority != 0 &&
      exists it :: it in reply && it.name == s.name
    decreases |reply|
  {
    if reply != [] {
      var p, last := reply[..|reply| - 1], reply[|reply| - 1];
      assert reply == p + [last];
      AiSuggestionsSound(p);
      var q := AiSuggestions(p);
      forall s | s in AiSuggestions(reply)
        ensures s.kind == Ai && s.name != "" && s.reason != "" && s.priority != 0 &&
          exists it :: it in reply && it.name == s.name
      {
        if s !in q {
          assert s == AiOf(last) && last in reply;
        } else {
          var it :| it in p && it.name == s.name;
          assert it in reply;
        }
      }
    }
  }

  /** Every named element of the reply becomes a suggestion, with the
      default reason and priority filling in missing ones. */
  lemma {:induction false} AiSuggestionsComplete(reply: seq<AiItem>)
    ensures forall it :: it in reply && it.name != "" ==> AiOf(it) in AiSuggestions(reply)
    decreases |reply|
  {
    if reply != [] {
      var p, last := reply[..|reply| - 1], reply[|reply| - 1];
      assert reply == p + [last];
      AiSuggestionsComplete(p);
    }
  }

  /** `generateSuggestions(currentItems, userHistory)`: the model's list when
      an API key is configured and the list is not empty, the rule-based list
      otherwise. `aiReply` is the parsed reply; a failed request yields []. */
  method GenerateSuggestions(currentItems: seq<string>, history: seq<string>, month: int,
                             hasApiKey: bool, aiReply: seq<AiItem>) returns (r: seq<Suggestion>)
    ensures hasApiKey && AiSuggestions(aiReply) != [] ==> r == AiSuggestions(aiReply)
    ensures !hasApiKey || AiSuggestions(aiReply) == [] ==> r == RuleBasedSuggestions(currentItems, history, month)
  {
    if hasApiKey {
      var ai := AiSuggestions(aiReply);
      if |ai| > 0 {
        return ai;
      }
    }
    r := GetRuleBasedSuggestions(currentItems, history, month);
  }
}
