/** Term-overlap keyword search. The source carries this loop three times
    (KnowledgeBase.search_documents, Retriever.retrieve's fallback and
    VectorDatabase._keyword_search): each lower-cases and whitespace-splits the query, counts
    for every document how many terms occur in its lower-cased content, keeps the documents
    scoring above zero and stably sorts them by score, highest first. Here the loop is written
    once, over the documents' contents, and yields their positions; each caller maps the
    positions back to its own documents and, where it does, truncates to top_k. */
module Ranking {
  import opened Text

  /** query.lower().split() */
  function QueryTerms(query: string): seq<string> {
    Words(Lower(query))
  }

  /** Every query term is non-empty, free of whitespace and already lower-case, so the
      `term.lower()` the retriever and the vector database apply to it changes nothing. */
  lemma QueryTermsShape(query: string)
    ensures forall t :: t in QueryTerms(query) ==> t != [] && Lower(t) == t
    ensures forall t, i :: t in QueryTerms(query) && 0 <= i < |t| ==> !IsSpace(t[i])
  {
    var s := Lower(query);
    forall t | t in QueryTerms(query) ensures Lower(t) == t {
      forall i | 0 <= i < |t| ensures LowerChar(t[i]) == t[i] {
        assert t[i] in s;
        var j :| 0 <= j < |s| && s[j] == t[i];
        assert s[j] == LowerChar(query[j]);
      }
    }
  }

  /** How many of the terms, repeats included, occur in text */
  function Hits(terms: seq<string>, text: string): (n: nat)
    ensures n <= |terms|
  {
    if terms == [] then 0
    else Hits(terms[..|terms| - 1], text) + (if Contains(text, terms[|terms| - 1]) then 1 else 0)
  }

  /** The score keyword search gives a document: query terms found in its lower-cased content */
  function Score(terms: seq<string>, content: string): nat {
    Hits(terms, Lower(content))
  }

  /** A document position paired with its score (the `(doc, score)` tuples of the source) */
  datatype Scored = Scored(pos: nat, score: nat)

  predicate Increasing(p: seq<Scored>) {
    forall k, l :: 0 <= k < l < |p| ==> p[k].pos < p[l].pos
  }

  /** The documents scoring above zero, with their scores, in store order: what the scoring
      loop accumulates in `results` before sorting */
  function Matches(texts: seq<string>, terms: seq<string>): (m: seq<Scored>)
    ensures |m| <= |texts| && Increasing(m)
    ensures forall e :: e in m ==>
      e.pos < |texts| && e.score == Score(terms, texts[e.pos]) && 0 < e.score <= |terms|
  {
    if texts == [] then []
    else
      var n := |texts| - 1;
      var s := Score(terms, texts[n]);
      var prior := Matches(texts[..n], terms);
      assert forall e :: e in prior ==> e.pos < n && texts[..n][e.pos] == texts[e.pos];
      prior + (if s > 0 then [Scored(n, s)] else [])
  }

  /** A document that scores above zero is among the matches. */
  lemma {:induction false} MatchesComplete(texts: seq<string>, terms: seq<string>, p: nat)
    requires p < |texts| && Score(terms, texts[p]) > 0
    ensures Scored(p, Score(terms, texts[p])) in Matches(texts, terms)
  {
    var n := |texts| - 1;
    if p < n {
      assert texts[..n][p] == texts[p];
      MatchesComplete(texts[..n], terms, p);
    }
  }

  /** The members of p scoring exactly s, in their order in p */
  function Tier(p: seq<Scored>, s: nat): (t: seq<Scored>)
    ensures |t| <= |p|
  {
    if p == [] then []
    else
      var n := |p| - 1;
      Tier(p[..n], s) + (if p[n].score == s then [p[n]] else [])
  }

  /** Tiers hi, hi - 1, ..., lo + 1 of p, one after the other: the members of p with scores in
      (lo, hi], highest score first, ties in their order in p. This is the reference for a
      stable sort by score in descending order. */
  function Band(p: seq<Scored>, hi: nat, lo: nat): seq<Scored>
    decreases hi
  {
    if hi <= lo then [] else Tier(p, hi) + Band(p, hi - 1, lo)
  }

  function Positions(b: seq<Scored>): (r: seq<nat>)
    ensures |r| == |b| && forall k :: 0 <= k < |b| ==> r[k] == b[k].pos
  {
    seq(|b|, k requires 0 <= k < |b| => b[k].pos)
  }

  /** The reference ranking: the positions of the documents scoring above zero, tier by tier
      from the highest possible score (every term found) down to 1, each tier in store order. */
  function Ranked(texts: seq<string>, terms: seq<string>): (r: seq<nat>)
    ensures forall k :: 0 <= k < |r| ==> r[k] < |texts|
  {
    var b := Band(Matches(texts, terms), |terms|, 0);
    BandMembers(Matches(texts, terms), |terms|, 0);
    assert forall k :: 0 <= k < |b| ==> b[k] in b;
    Positions(b)
  }

  // ---------------------------------------------------------------- facts about tiers and bands

  lemma {:induction false} TierMembers(p: seq<Scored>, s: nat)
    ensures forall e :: e in Tier(p, s) <==> e in p && e.score == s
  {
    if p != [] {
      var n := |p| - 1;
      TierMembers(p[..n], s);
      assert p == p[..n] + [p[n]];
    }
  }

  /** A band holds exactly the entries whose scores lie in (lo, hi]. */
  lemma {:induction false} BandMembers(p: seq<Scored>, hi: nat, lo: nat)
    ensures forall e :: e in Band(p, hi, lo) <==> e in p && lo < e.score <= hi
    decreases hi
  {
    if hi > lo {
      var t := Tier(p, hi);
      var rest := Band(p, hi - 1, lo);
      TierMembers(p, hi);
      BandMembers(p, hi - 1, lo);
      assert Band(p, hi, lo) == t + rest;
      forall e ensures e in Band(p, hi, lo) <==> e in p && lo < e.score <= hi {
        assert e in t + rest <==> e in t || e in rest;
      }
    } else {
      assert Band(p, hi, lo) == [];
    }
  }

  lemma TierAppend(p: seq<Scored>, x: Scored, s: nat)
    ensures Tier(p + [x], s) == Tier(p, s) + (if x.score == s then [x] else [])
  {
    assert (p + [x])[..|p|] == p;
  }

  lemma {:induction false} BandAppendOutside(p: seq<Scored>, x: Scored, hi: nat, lo: nat)
    requires !(lo < x.score <= hi)
    ensures Band(p + [x], hi, lo) == Band(p, hi, lo)
    decreases hi
  {
    if hi > lo {
      TierAppend(p, x, hi);
      BandAppendOutside(p, x, hi - 1, lo);
    }
  }

  lemma {:induction false} BandSplit(p: seq<Scored>, hi: nat, mid: nat, lo: nat)
    requires lo <= mid <= hi
    ensures Band(p, hi, lo) == Band(p, hi, mid) + Band(p, mid, lo)
    decreases hi
  {
    if hi > mid {
      BandSplit(p, hi - 1, mid, lo);
    }
  }

  /** Appending one scored entry to the input of a stable descending sort puts it after every
      entry of the same or a higher score and before every entry of a lower score. */
  lemma {:induction false} BandInsert(p: seq<Scored>, x: Scored, hi: nat, lo: nat)
    requires lo < x.score <= hi
    ensures Band(p + [x], hi, lo) == Band(p, hi, x.score - 1) + [x] + Band(p, x.score - 1, lo)
  {
    var k := x.score;
    BandAppendSplit(p, x, hi, lo);
    BandLowerEdge(p, hi, k);
    Regroup(Band(p, hi, k), Tier(p, k), [x], Band(p, k - 1, lo));
  }

  lemma Regroup<T>(a: seq<T>, b: seq<T>, c: seq<T>, d: seq<T>)
    ensures a + ((b + c) + d) == (a + b) + c + d
  {
  }

  lemma BandAppendSplit(p: seq<Scored>, x: Scored, hi: nat, lo: nat)
    requires lo < x.score <= hi
    ensures Band(p + [x], hi, lo)
      == Band(p, hi, x.score) + ((Tier(p, x.score) + [x]) + Band(p, x.score - 1, lo))
  {
    var k := x.score;
    var q := p + [x];
    assert Band(q, hi, lo) == Band(q, hi, k) + (Band(q, k, k - 1) + Band(q, k - 1, lo)) by {
      BandSplit(q, hi, k, lo);
      BandSplit(q, k, k - 1, lo);
    }
    assert Band(q, hi, k) == Band(p, hi, k) by {
      BandAppendOutside(p, x, hi, k);
    }
    assert Band(q, k - 1, lo) == Band(p, k - 1, lo) by {
      BandAppendOutside(p, x, k - 1, lo);
    }
    assert Band(q, k, k - 1) == Tier(p, k) + [x] by {
      TierAppend(p, x, k);
      BandSingleTier(q, k);
    }
  }

  lemma BandLowerEdge(p: seq<Scored>, hi: nat, k: nat)
    requires 0 < k <= hi
    ensures Band(p, hi, k - 1) == Band(p, hi, k) + Tier(p, k)
  {
    BandSplit(p, hi, k, k - 1);
    BandSingleTier(p, k);
  }

  lemma BandSingleTier(p: seq<Scored>, k: nat)
    requires 0 < k
    ensures Band(p, k, k - 1) == Tier(p, k)
  {
    assert Band(p, k, k - 1) == Tier(p, k) + Band(p, k - 1, k - 1);
  }

  lemma BandOfNothing(hi: nat, lo: nat)
    ensures Band([], hi, lo) == []
  {
    if hi > lo {
      BandOfNothing(hi - 1, lo);
    }
  }

  lemma {:induction false} BandLength(p: seq<Scored>, hi: nat, lo: nat)
    ensures |Band(p, hi, lo)| <= |p|
  {
    if p == [] {
      BandOfNothing(hi, lo);
    } else {
      var n := |p| - 1;
      var q := p[..n];
      var x := p[n];
      assert p == q + [x];
      BandLength(q, hi, lo);
      if lo < x.score <= hi {
        BandInsert(q, x, hi, lo);
        BandSplit(q, hi, x.score - 1, lo);
        assert |Band(p, hi, lo)| == |Band(q, hi, lo)| + 1;
      } else {
        BandAppendOutside(q, x, hi, lo);
      }
    }
  }

  lemma {:induction false} TierIncreasing(p: seq<Scored>, s: nat)
    requires Increasing(p)
    ensures Increasing(Tier(p, s))
  {
    if p != [] {
      var n := |p| - 1;
      TierIncreasing(p[..n], s);
      TierMembers(p[..n], s);
      var t := Tier(p[..n], s);
      forall k | 0 <= k < |t| ensures t[k].pos < p[n].pos {
        assert t[k] in p[..n];
        var l :| 0 <= l < n && p[l] == t[k];
      }
    }
  }

  /** Highest score first; among equal scores, earlier position first */
  predicate Descending(b: seq<Scored>) {
    forall i, j :: 0 <= i < j < |b| ==>
      b[i].score > b[j].score || (b[i].score == b[j].score && b[i].pos < b[j].pos)
  }

  lemma DescendingConcat(a: seq<Scored>, c: seq<Scored>)
    requires Descending(a) && Descending(c)
    requires forall x, y :: x in a && y in c ==> x.score > y.score
    ensures Descending(a + c)
  {
    var b := a + c;
    forall i, j | 0 <= i < j < |b|
      ensures b[i].score > b[j].score || (b[i].score == b[j].score && b[i].pos < b[j].pos)
    {
      if j < |a| {
        assert b[i] == a[i] && b[j] == a[j];
      } else if i >= |a| {
        assert b[i] == c[i - |a|] && b[j] == c[j - |a|];
      } else {
        assert b[i] == a[i] && a[i] in a;
        assert b[j] == c[j - |a|] && c[j - |a|] in c;
      }
    }
  }

  /** A band is ordered by score, highest first, and by position among equal scores. */
  lemma {:induction false} BandDescending(p: seq<Scored>, hi: nat, lo: nat)
    requires Increasing(p)
    ensures Descending(Band(p, hi, lo))
    decreases hi
  {
    if hi > lo {
      var t := Tier(p, hi);
      TierIncreasing(p, hi);
      TierMembers(p, hi);
      BandMembers(p, hi - 1, lo);
      forall i, j | 0 <= i < j < |t| ensures t[i].score == t[j].score {
        assert t[i] in t && t[j] in t;
      }
      BandDescending(p, hi - 1, lo);
      DescendingConcat(t, Band(p, hi - 1, lo));
    }
  }

  // ---------------------------------------------------------------- what the ranking promises

  /** A document is ranked exactly when it scores above zero. */
  lemma RankedMembers(texts: seq<string>, terms: seq<string>, p: nat)
    ensures p in Ranked(texts, terms) <==> p < |texts| && Score(terms, texts[p]) > 0
  {
    var m := Matches(texts, terms);
    var b := Band(m, |terms|, 0);
    var r := Ranked(texts, terms);
    BandMembers(m, |terms|, 0);
    if p in r {
      var k :| 0 <= k < |r| && r[k] == p;
      assert b[k] in b;
    }
    if p < |texts| && Score(terms, texts[p]) > 0 {
      MatchesComplete(texts, terms, p);
      var e := Scored(p, Score(terms, texts[p]));
      assert e in b;
      var k :| 0 <= k < |b| && b[k] == e;
      assert r[k] == p;
    }
  }

  /** Ranked documents come in descending score order, ties in store order; so no document
      is ranked twice and the ranking is never longer than the store. */
  lemma RankedOrder(texts: seq<string>, terms: seq<string>)
    ensures var r := Ranked(texts, terms);
      forall i, j :: 0 <= i < j < |r| ==>
        Score(terms, texts[r[i]]) > Score(terms, texts[r[j]]) ||
        (Score(terms, texts[r[i]]) == Score(terms, texts[r[j]]) && r[i] < r[j])
    ensures |Ranked(texts, terms)| <= |texts|
  {
    var m := Matches(texts, terms);
    var b := Band(m, |terms|, 0);
    var r := Ranked(texts, terms);
    BandDescending(m, |terms|, 0);
    BandMembers(m, |terms|, 0);
    forall i, j | 0 <= i < j < |r|
      ensures Score(terms, texts[r[i]]) > Score(terms, texts[r[j]]) ||
        (Score(terms, texts[r[i]]) == Score(terms, texts[r[j]]) && r[i] < r[j])
    {
      assert b[i] in b && b[j] in b;
    }
    BandLength(m, |terms|, 0);
  }

  // ---------------------------------------------------------------- the scoring loop and the sort

  /** list.sort(key=lambda x: x[1], reverse=True) on entries whose scores lie in 1..top: a
      stable sort, highest score first (an insertion sort here) */
  method SortByScore(p: seq<Scored>, top: nat) returns (sorted: seq<Scored>)
    requires forall e :: e in p ==> 0 < e.score <= top
    ensures sorted == Band(p, top, 0)
  {
    sorted := [];
    BandOfNothing(top, 0);
    assert p[..0] == [];
    for i := 0 to |p|
      invariant sorted == Band(p[..i], top, 0)
    {
      var x := p[i];
      var j := 0;
      while j < |sorted| && sorted[j].score >= x.score
        invariant j <= |sorted|
        invariant forall k :: 0 <= k < j ==> sorted[k].score >= x.score
      {
        j := j + 1;
      }
      assert x in p;
      InsertAt(p, i, top, j);
      sorted := sorted[..j] + [x] + sorted[j..];
    }
    assert p[..|p|] == p;
  }

  /** One step of the insertion sort, stated on the input and its prefixes */
  lemma InsertAt(p: seq<Scored>, i: nat, top: nat, j: nat)
    requires i < |p| && 0 < p[i].score <= top
    requires j <= |Band(p[..i], top, 0)|
    requires forall k :: 0 <= k < j ==> Band(p[..i], top, 0)[k].score >= p[i].score
    requires j < |Band(p[..i], top, 0)| ==> Band(p[..i], top, 0)[j].score < p[i].score
    ensures Band(p[..i + 1], top, 0)
      == Band(p[..i], top, 0)[..j] + [p[i]] + Band(p[..i], top, 0)[j..]
  {
    assert p[..i + 1] == p[..i] + [p[i]];
    InsertPosition(p[..i], p[i], top, j);
  }

  /** The first entry of a band scoring below x is where x goes. */
  lemma InsertPosition(q: seq<Scored>, x: Scored, top: nat, j: nat)
    requires 0 < x.score <= top
    requires j <= |Band(q, top, 0)|
    requires forall k :: 0 <= k < j ==> Band(q, top, 0)[k].score >= x.score
    requires j < |Band(q, top, 0)| ==> Band(q, top, 0)[j].score < x.score
    ensures Band(q + [x], top, 0) == Band(q, top, 0)[..j] + [x] + Band(q, top, 0)[j..]
  {
    var s := Band(q, top, 0);
    var hiPart := Band(q, top, x.score - 1);
    var loPart := Band(q, x.score - 1, 0);
    BandSplit(q, top, x.score - 1, 0);
    BandInsert(q, x, top, 0);
    assert s == hiPart + loPart;
    BandMembers(q, top, x.score - 1);
    BandMembers(q, x.score - 1, 0);
    forall k | 0 <= k < |hiPart| ensures s[k].score >= x.score {
      assert s[k] == hiPart[k] && hiPart[k] in hiPart;
    }
    if |hiPart| < |s| {
      assert s[|hiPart|] == loPart[0] && loPart[0] in loPart;
    }
    assert j == |hiPart|;
    assert s[..j] == hiPart && s[j..] == loPart;
  }

  /** The scoring loop followed by the sort: the positions of the documents scoring above
      zero, ordered as the reference ranking orders them */
  method RankMatches(texts: seq<string>, terms: seq<string>) returns (ranked: seq<nat>)
    ensures ranked == Ranked(texts, terms)
  {
    var results: seq<Scored> := [];
    for i := 0 to |texts|
      invariant results == Matches(texts[..i], terms)
    {
      var content := Lower(texts[i]);
      var score := 0;
      for j := 0 to |terms|
        invariant score == Hits(terms[..j], content)
      {
        if Contains(content, terms[j]) {
          score := score + 1;
        }
        assert terms[..j + 1][..j] == terms[..j];
      }
      assert terms[..|terms|] == terms;
      assert texts[..i + 1][..i] == texts[..i];
      if score > 0 {
        results := results + [Scored(i, score)];
      }
    }
    assert texts[..|texts|] == texts;
    var sorted := SortByScore(results, |terms|);
    ranked := Positions(sorted);
  }

  // ---------------------------------------------------------------- slicing and picking

  /** s[:k], Python's slice, which for a negative k drops the last -k entries */
  function Take<T>(s: seq<T>, k: int): (r: seq<T>)
    ensures |r| <= |s| && r == s[..|r|]
    ensures 0 <= k ==> |r| == (if k < |s| then k else |s|)
  {
    if k >= 0 then (if k < |s| then s[..k] else s)
    else if -k < |s| then s[..|s| + k]
    else []
  }

  /** The items at the given positions, in the order of the positions */
  function Pick<T>(items: seq<T>, ix: seq<nat>): (r: seq<T>)
    requires forall k :: 0 <= k < |ix| ==> ix[k] < |items|
    ensures |r| == |ix| && forall k :: 0 <= k < |ix| ==> r[k] == items[ix[k]]
  {
    seq(|ix|, k requires 0 <= k < |ix| => items[ix[k]])
  }
}
