/** The integer and filtering part of the "hidden gems" ranking
    (app/routes/recommendations.py): review totals, the popularity proxy,
    the name and minimum-review filters, the descending sort by score and
    the `[:limit]` cut. The float score itself is a given key function. */
module Recommendations {
  import opened PyJson

  /** The App columns the ranking reads; every one of them may be NULL. */
  datatype Candidate = Candidate(
    appid: int,
    name: Option<string>,
    positive: Option<int>,
    negative: Option<int>,
    recommendationsTotal: Option<int>)

  /** `x or 0` on a nullable integer column. */
  function OrZero(x: Option<int>): (r: int)
    ensures x.None? ==> r == 0
    ensures x.Some? ==> r == x.value
  {
    if x.Some? then x.value else 0
  }

  /** `total_reviews`: positive plus negative reviews, a missing count being 0. */
  function TotalReviews(c: Candidate): (r: int)
    ensures c.positive.None? && c.negative.None? ==> r == 0
    ensures c.positive.Some? && c.negative.None? ==> r == c.positive.value
    ensures c.positive.None? && c.negative.Some? ==> r == c.negative.value
    ensures c.positive.Some? && c.negative.Some? ==> r == c.positive.value + c.negative.value
  {
    OrZero(c.positive) + OrZero(c.negative)
  }

  /** `popularity_proxy`: the storefront recommendation total whenever the
      column is not NULL (0 included), otherwise the review total; never
      below 1, so the score's logarithm is always defined. */
  function PopularityProxy(c: Candidate): (r: int)
    ensures r >= 1
    ensures c.recommendationsTotal.Some? && c.recommendationsTotal.value >= 1 ==> r == c.recommendationsTotal.value
    ensures c.recommendationsTotal.Some? && c.recommendationsTotal.value < 1 ==> r == 1
    ensures c.recommendationsTotal.None? ==> r == if TotalReviews(c) >= 1 then TotalReviews(c) else 1
  {
    var val := if c.recommendationsTotal.Some? then c.recommendationsTotal.value else TotalReviews(c);
    if val >= 1 then val else 1
  }

  /** Python's `needle in hay` on strings. */
  predicate Occurs(needle: string, hay: string)
    decreases |hay|
  {
    needle <= hay || (hay != [] && Occurs(needle, hay[1..]))
  }

  /** A needle starting at position `i` occurs. */
  lemma {:induction false} StartOccurs(needle: string, hay: string, i: nat)
    requires i <= |hay| && needle <= hay[i..]
    ensures Occurs(needle, hay)
    decreases i
  {
    if i > 0 {
      assert hay[1..][i - 1..] == hay[i..];
      StartOccurs(needle, hay[1..], i - 1);
    } else {
      assert hay[0..] == hay;
    }
  }

  /** An occurring needle starts at some position. */
  lemma {:induction false} OccursStart(needle: string, hay: string)
    requires Occurs(needle, hay)
    ensures exists i :: 0 <= i <= |hay| && needle <= hay[i..]
    decreases |hay|
  {
    if needle <= hay {
      assert hay[0..] == hay;
    } else {
      OccursStart(needle, hay[1..]);
      var i :| 0 <= i <= |hay[1..]| && needle <= hay[1..][i..];
      assert hay[1..][i..] == hay[i + 1..];
    }
  }

  /** `needle in hay` holds exactly when `needle` starts at some position of `hay`. */
  lemma OccursIff(needle: string, hay: string)
    ensures Occurs(needle, hay) <==> exists i :: 0 <= i <= |hay| && needle <= hay[i..]
  {
    if exists i :: 0 <= i <= |hay| && needle <= hay[i..] {
      var i :| 0 <= i <= |hay| && needle <= hay[i..];
      StartOccurs(needle, hay, i);
    }
    if Occurs(needle, hay) {
      OccursStart(needle, hay);
    }
  }

  /** `(game.name or "")` */
  function NameOrEmpty(c: Candidate): (r: string)
    ensures c.name.Some? ==> r == c.name.value
    ensures c.name.None? ==> r == ""
  {
    if c.name.Some? then c.name.value else ""
  }

  /** Whether a candidate survives the name filter for query `q`, with
      `lower` standing for Python's `str.lower`. */
  predicate NameMatches(c: Candidate, q: string, lower: string -> string) {
    Occurs(lower(q), lower(NameOrEmpty(c)))
  }

  /** The name filter: applied only when `q` is given and non-empty; keeps,
      in order, the candidates whose lower-cased name contains the
      lower-cased query. */
  function FilterByName(cs: seq<Candidate>, q: Option<string>, lower: string -> string): (r: seq<Candidate>)
    ensures |r| <= |cs|
    ensures q.None? || q == Some("") ==> r == cs
    ensures q.Some? && q.value != "" ==>
              forall c :: c in r <==> c in cs && NameMatches(c, q.value, lower)
    decreases |cs|
  {
    if q.None? || q.value == "" || cs == [] then cs
    else
      var rest := FilterByName(cs[1..], q, lower);
      if NameMatches(cs[0], q.value, lower) then [cs[0]] + rest else rest
  }

  /** The minimum-review filter: keeps, in order, the candidates with at
      least `minReviews` reviews in total. */
  function FilterByReviews(cs: seq<Candidate>, minReviews: int): (r: seq<Candidate>)
    ensures |r| <= |cs|
    ensures forall c :: c in r <==> c in cs && TotalReviews(c) >= minReviews
    ensures (forall c :: c in cs ==> TotalReviews(c) >= minReviews) ==> r == cs
    decreases |cs|
  {
    if cs == [] then []
    else
      var rest := FilterByReviews(cs[1..], minReviews);
      if TotalReviews(cs[0]) >= minReviews then [cs[0]] + rest else rest
  }

  /** Non-increasing in `key`. */
  predicate SortedDesc(xs: seq<Candidate>, key: Candidate -> real) {
    forall i, j :: 0 <= i < j < |xs| ==> key(xs[i]) >= key(xs[j])
  }

  /** Puts `x` before the first element whose key is not greater than its
      own, so `x` stays ahead of the elements it ties with. */
  function Insert(x: Candidate, xs: seq<Candidate>, key: Candidate -> real): (r: seq<Candidate>)
    ensures multiset(r) == multiset(xs) + multiset{x}
    decreases |xs|
  {
    if xs == [] then [x]
    else if key(xs[0]) <= key(x) then [x] + xs
    else
      assert xs == [xs[0]] + xs[1..];
      [xs[0]] + Insert(x, xs[1..], key)
  }

  /** Every element of an insertion result is `x` or came from `xs`. */
  lemma InsertFrom(x: Candidate, xs: seq<Candidate>, key: Candidate -> real)
    ensures forall y :: y in Insert(x, xs, key) ==> y == x || y in xs
  {
    var r := Insert(x, xs, key);
    forall y | y in r
      ensures y == x || y in xs
    {
      assert y in multiset(r);
    }
  }

  /** Prepending an element no smaller than the rest keeps a list sorted. */
  lemma SortedCons(h: Candidate, rest: seq<Candidate>, key: Candidate -> real)
    requires SortedDesc(rest, key)
    requires forall y :: y in rest ==> key(h) >= key(y)
    ensures SortedDesc([h] + rest, key)
  {
    var r := [h] + rest;
    forall i, j | 0 <= i < j < |r|
      ensures key(r[i]) >= key(r[j])
    {
      assert r[j] == rest[j - 1];
      if i > 0 {
        assert r[i] == rest[i - 1];
      }
    }
  }

  /** Inserting into a sorted list keeps it sorted. */
  lemma {:induction false} InsertSorted(x: Candidate, xs: seq<Candidate>, key: Candidate -> real)
    requires SortedDesc(xs, key)
    ensures SortedDesc(Insert(x, xs, key), key)
    decreases |xs|
  {
    if xs != [] {
      assert forall y :: y in xs[1..] ==> key(xs[0]) >= key(y) by {
        forall y | y in xs[1..]
          ensures key(xs[0]) >= key(y)
        {
          var k :| 0 <= k < |xs[1..]| && xs[1..][k] == y;
          assert xs[k + 1] == y;
        }
      }
      if key(xs[0]) <= key(x) {
        assert xs == [xs[0]] + xs[1..];
        SortedCons(x, xs, key);
      } else {
        InsertSorted(x, xs[1..], key);
        InsertFrom(x, xs[1..], key);
        SortedCons(xs[0], Insert(x, xs[1..], key), key);
      }
    }
  }

  /** `sorted(cs, key=score, reverse=True)`: a stable sort into
      non-increasing key order. */
  function SortDesc(cs: seq<Candidate>, key: Candidate -> real): (r: seq<Candidate>)
    ensures SortedDesc(r, key)
    ensures multiset(r) == multiset(cs)
    ensures |r| == |cs|
    decreases |cs|
  {
    if cs == [] then []
    else
      assert cs == [cs[0]] + cs[1..];
      InsertSorted(cs[0], SortDesc(cs[1..], key), key);
      Insert(cs[0], SortDesc(cs[1..], key), key)
  }

  /** Python's `xs[:limit]`: a prefix of `xs`; a negative `limit` drops that
      many elements from the end. */
  function SlicePrefix(xs: seq<Candidate>, limit: int): (r: seq<Candidate>)
    ensures r <= xs
    ensures limit >= 0 ==> |r| == if limit < |xs| then limit else |xs|
    ensures limit < 0 ==> |r| == if |xs| + limit > 0 then |xs| + limit else 0
  {
    if limit >= 0 then
      (if limit < |xs| then xs[..limit] else xs)
    else if |xs| + limit > 0 then xs[..|xs| + limit]
    else []
  }

  /** Whether `score(game)` raises: with reviews counted but `positive`
      NULL, `pos_ratio` calls `float(None)`, a TypeError. */
  predicate ScoreRaises(c: Candidate) {
    c.positive.None? && TotalReviews(c) != 0
  }

  /** The candidates both filters keep, in stored order. */
  function Filtered(cs: seq<Candidate>, q: Option<string>, minReviews: int, lower: string -> string): seq<Candidate> {
    FilterByReviews(FilterByName(cs, q, lower), minReviews)
  }

  /** The ranked list `recommendations()` renders. `sorted` computes the key
      of every survivor, so one survivor whose score raises makes the route
      raise; otherwise the score is the given `key`. */
  function Recommend(
    cs: seq<Candidate>, q: Option<string>, minReviews: int, limit: int,
    lower: string -> string, key: Candidate -> real): Outcome<seq<Candidate>>
  {
    var filtered := Filtered(cs, q, minReviews, lower);
    if exists c :: c in filtered && ScoreRaises(c) then Raises
    else Returns(SlicePrefix(SortDesc(filtered, key), limit))
  }

  /** The route raises exactly when a stored candidate passes both filters
      with a NULL `positive` and a non-zero `negative` count. */
  lemma RecommendRaisesIff(
    cs: seq<Candidate>, q: Option<string>, minReviews: int, limit: int,
    lower: string -> string, key: Candidate -> real)
    ensures Recommend(cs, q, minReviews, limit, lower, key).Raises? <==>
            exists c :: && c in cs && TotalReviews(c) >= minReviews
                        && (q.None? || q.value == "" || NameMatches(c, q.value, lower))
                        && c.positive.None? && c.negative.Some? && c.negative.value != 0
  {
    var filtered := Filtered(cs, q, minReviews, lower);
    if exists c :: c in filtered && ScoreRaises(c) {
      var c :| c in filtered && ScoreRaises(c);
      assert c in cs && TotalReviews(c) >= minReviews;
    }
  }

  /** What the route returns: at most `limit` entries for a non-negative
      limit, every one a stored candidate with at least `minReviews`
      reviews whose name matches a non-empty query, in non-increasing score
      order. */
  lemma RecommendSound(
    cs: seq<Candidate>, q: Option<string>, minReviews: int, limit: int,
    lower: string -> string, key: Candidate -> real)
    requires Recommend(cs, q, minReviews, limit, lower, key).Returns?
    ensures var r := Recommend(cs, q, minReviews, limit, lower, key).value;
            && (limit >= 0 ==> |r| <= limit)
            && |r| <= |cs|
            && SortedDesc(r, key)
            && (forall c :: c in r ==> c in cs && TotalReviews(c) >= minReviews && !ScoreRaises(c))
            && (q.Some? && q.value != "" ==> forall c :: c in r ==> NameMatches(c, q.value, lower))
  {
    var filtered := Filtered(cs, q, minReviews, lower);
    var sorted := SortDesc(filtered, key);
    var r := SlicePrefix(sorted, limit);
    forall c | c in r
      ensures c in filtered
    {
      assert c in multiset(sorted);
    }
    assert forall i, j :: 0 <= i < j < |r| ==> r[i] == sorted[i] && r[j] == sorted[j];
  }

  /** In a non-increasing list, nothing after position `n` scores higher
      than anything before it. */
  lemma PrefixDominates(xs: seq<Candidate>, n: nat, key: Candidate -> real)
    requires SortedDesc(xs, key) && n <= |xs|
    ensures forall c, d :: c in xs[..n] && d in xs[n..] ==> key(d) <= key(c)
  {
    forall c, d | c in xs[..n] && d in xs[n..]
      ensures key(d) <= key(c)
    {
      var i :| 0 <= i < n && xs[..n][i] == c;
      var j :| 0 <= j < |xs[n..]| && xs[n..][j] == d;
      assert xs[i] == c && xs[n + j] == d;
    }
  }

  /** The route returns the top N: for a non-negative limit, exactly
      `min(limit, survivors)` entries, and every survivor that was cut off
      scores no higher than any entry returned. */
  lemma RecommendTop(
    cs: seq<Candidate>, q: Option<string>, minReviews: int, limit: int,
    lower: string -> string, key: Candidate -> real)
    requires limit >= 0
    requires Recommend(cs, q, minReviews, limit, lower, key).Returns?
    ensures var filtered := Filtered(cs, q, minReviews, lower);
            var r := Recommend(cs, q, minReviews, limit, lower, key).value;
            && |r| == (if limit < |filtered| then limit else |filtered|)
            && forall c, d :: c in r && d in multiset(filtered) - multiset(r) ==> key(d) <= key(c)
  {
    var filtered := Filtered(cs, q, minReviews, lower);
    var sorted := SortDesc(filtered, key);
    var r := SlicePrefix(sorted, limit);
    var n := |r|;
    assert r == sorted[..n];
    assert sorted == r + sorted[n..];
    assert multiset(filtered) - multiset(r) == multiset(sorted[n..]);
    PrefixDominates(sorted, n, key);
  }

  /** When `limit` covers every survivor, nothing is cut: every stored
      candidate that passes both filters is in the result, as often as it
      was stored. */
  lemma RecommendComplete(
    cs: seq<Candidate>, q: Option<string>, minReviews: int, limit: int,
    lower: string -> string, key: Candidate -> real)
    requires limit >= |cs|
    requires Recommend(cs, q, minReviews, limit, lower, key).Returns?
    ensures var r := Recommend(cs, q, minReviews, limit, lower, key).value;
            && multiset(r) == multiset(Filtered(cs, q, minReviews, lower))
            && (forall c :: (c in cs && TotalReviews(c) >= minReviews
                             && (q.None? || q.value == "" || NameMatches(c, q.value, lower))) ==> c in r)
  {
    var filtered := Filtered(cs, q, minReviews, lower);
    var sorted := SortDesc(filtered, key);
    assert SlicePrefix(sorted, limit) == sorted;
    forall c | c in cs && TotalReviews(c) >= minReviews
                         && (q.None? || q.value == "" || NameMatches(c, q.value, lower))
      ensures c in sorted
    {
      assert c in filtered;
      assert c in multiset(filtered);
    }
  }
}
