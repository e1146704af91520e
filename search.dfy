/** The search filter of `filterCryptos`: normalise the term, then keep, in
    order, the records whose lower-cased name or symbol contains it. */
module Search {
  import opened Text
  import opened Assets

  /** `searchTerm.toLowerCase().trim()`: never longer than the search text,
      and empty exactly when the search text is empty or whitespace only. */
  function NormalizeTerm(searchTerm: string): (term: string)
    ensures |term| <= |searchTerm|
    ensures term == [] <==> AllSpace(searchTerm)
  {
    ToLowerKeepsSpace(searchTerm);
    TrimSpec(ToLower(searchTerm));
    Trim(ToLower(searchTerm))
  }

  /** The `filter` callback: the term occurs at some position of the
      lower-cased name or of the lower-cased symbol. The term is used as
      given (it is already normalised). */
  function Matches(a: Asset, term: string): (b: bool)
    ensures b <==> Occurs(ToLower(a.name), term) || Occurs(ToLower(a.symbol), term)
    ensures term == [] ==> b
  {
    ContainsIff(ToLower(a.name), term);
    ContainsIff(ToLower(a.symbol), term);
    Contains(ToLower(a.name), term) || Contains(ToLower(a.symbol), term)
  }

  /** `cryptos.filter(...)` with the callback above. */
  function FilterBy(cryptos: seq<Asset>, term: string): (r: seq<Asset>)
    ensures |r| <= |cryptos|
    ensures forall k :: 0 <= k < |r| ==> Matches(r[k], term)
  {
    if cryptos == [] then []
    else if Matches(cryptos[0], term) then [cryptos[0]] + FilterBy(cryptos[1..], term)
    else FilterBy(cryptos[1..], term)
  }

  /** The list `filterCryptos` assigns to `filteredCryptos`: the whole list
      when the normalised term is empty, the matching records otherwise.
      Either way no more records than the full list, each matching the
      normalised term. */
  function FilterCryptos(all: seq<Asset>, searchTerm: string): (r: seq<Asset>)
    ensures |r| <= |all|
    ensures forall k :: 0 <= k < |r| ==> Matches(r[k], NormalizeTerm(searchTerm))
  {
    var term := NormalizeTerm(searchTerm);
    if term == [] then all else FilterBy(all, term)
  }

  /** `a` is `b` with some elements deleted and the rest kept in order. */
  predicate IsSubsequence<T(==)>(a: seq<T>, b: seq<T>)
    decreases |b|
  {
    if a == [] then true
    else if b == [] then false
    else (a[0] == b[0] && IsSubsequence(a[1..], b[1..])) || IsSubsequence(a, b[1..])
  }

  // ----- the filter itself -----

  /** A record is kept exactly when it is in the input and matches. */
  lemma {:induction false} FilterByMembership(cryptos: seq<Asset>, term: string, x: Asset)
    ensures x in FilterBy(cryptos, term) <==> x in cryptos && Matches(x, term)
  {
    if cryptos != [] {
      FilterByMembership(cryptos[1..], term, x);
      assert cryptos == [cryptos[0]] + cryptos[1..];
    }
  }

  /** Each matching record is kept as often as it occurs; no other record is kept. */
  lemma {:induction false} FilterByCount(cryptos: seq<Asset>, term: string, x: Asset)
    ensures multiset(FilterBy(cryptos, term))[x] == if Matches(x, term) then multiset(cryptos)[x] else 0
  {
    if cryptos != [] {
      var head, tail := cryptos[0], cryptos[1..];
      FilterByCount(tail, term, x);
      assert cryptos == [head] + tail;
      assert multiset(cryptos) == multiset([head]) + multiset(tail);
      if Matches(head, term) {
        assert FilterBy(cryptos, term) == [head] + FilterBy(tail, term);
        assert multiset(FilterBy(cryptos, term)) == multiset([head]) + multiset(FilterBy(tail, term));
      } else {
        assert FilterBy(cryptos, term) == FilterBy(tail, term);
      }
    }
  }

  /** The result keeps the input's order. */
  lemma {:induction false} FilterBySubsequence(cryptos: seq<Asset>, term: string)
    ensures IsSubsequence(FilterBy(cryptos, term), cryptos)
  {
    if cryptos != [] {
      FilterBySubsequence(cryptos[1..], term);
      var r := FilterBy(cryptos, term);
      if Matches(cryptos[0], term) {
        assert r[0] == cryptos[0] && r[1..] == FilterBy(cryptos[1..], term);
      }
    }
  }

  /** Filtering the result again with the same term changes nothing. */
  lemma {:induction false} FilterByIdempotent(cryptos: seq<Asset>, term: string)
    ensures FilterBy(FilterBy(cryptos, term), term) == FilterBy(cryptos, term)
  {
    if cryptos != [] {
      FilterByIdempotent(cryptos[1..], term);
      if Matches(cryptos[0], term) {
        var r := FilterBy(cryptos, term);
        assert r[0] == cryptos[0] && r[1..] == FilterBy(cryptos[1..], term);
      }
    }
  }

  /** With the empty term every record matches, since every string includes "". */
  lemma {:induction false} FilterByEmptyTerm(cryptos: seq<Asset>)
    ensures FilterBy(cryptos, []) == cryptos
  {
    if cryptos != [] {
      FilterByEmptyTerm(cryptos[1..]);
    }
  }

  // ----- filterCryptos -----

  /** Lower-casing neither creates nor removes whitespace. */
  lemma {:induction false} ToLowerKeepsSpace(s: string)
    ensures AllSpace(ToLower(s)) <==> AllSpace(s)
  {
    var l := ToLower(s);
    assert forall k :: 0 <= k < |s| ==> (IsSpace(l[k]) <==> IsSpace(s[k]));
  }

  /** The empty-term shortcut agrees with filtering by the normalised term. */
  lemma FilterCryptosIsFilterBy(all: seq<Asset>, searchTerm: string)
    ensures FilterCryptos(all, searchTerm) == FilterBy(all, NormalizeTerm(searchTerm))
  {
    if NormalizeTerm(searchTerm) == [] {
      FilterByEmptyTerm(all);
    }
  }

  /** An empty or whitespace-only term gives back the whole list, in order. */
  lemma FilterCryptosBlankTerm(all: seq<Asset>, searchTerm: string)
    requires AllSpace(searchTerm)
    ensures FilterCryptos(all, searchTerm) == all
  {
  }

  /** A record is in the filtered list exactly when it is in the full list and
      its lower-cased name or symbol contains the normalised term. */
  lemma FilterCryptosMembership(all: seq<Asset>, searchTerm: string, x: Asset)
    ensures x in FilterCryptos(all, searchTerm) <==> x in all && Matches(x, NormalizeTerm(searchTerm))
  {
    FilterCryptosIsFilterBy(all, searchTerm);
    FilterByMembership(all, NormalizeTerm(searchTerm), x);
  }

  /** The filtered list is an order-preserving subsequence of the full list,
      with each kept record as often as in the full list. */
  lemma FilterCryptosSubsequence(all: seq<Asset>, searchTerm: string)
    ensures IsSubsequence(FilterCryptos(all, searchTerm), all)
    ensures forall x :: Matches(x, NormalizeTerm(searchTerm)) ==>
      multiset(FilterCryptos(all, searchTerm))[x] == multiset(all)[x]
  {
    FilterCryptosIsFilterBy(all, searchTerm);
    FilterBySubsequence(all, NormalizeTerm(searchTerm));
    forall x | Matches(x, NormalizeTerm(searchTerm))
      ensures multiset(FilterCryptos(all, searchTerm))[x] == multiset(all)[x]
    {
      FilterByCount(all, NormalizeTerm(searchTerm), x);
    }
  }

  /** Filtering the filtered list again with the same search term changes nothing. */
  lemma FilterCryptosIdempotent(all: seq<Asset>, searchTerm: string)
    ensures FilterCryptos(FilterCryptos(all, searchTerm), searchTerm) == FilterCryptos(all, searchTerm)
  {
    var term := NormalizeTerm(searchTerm);
    FilterCryptosIsFilterBy(all, searchTerm);
    FilterCryptosIsFilterBy(FilterCryptos(all, searchTerm), searchTerm);
    FilterByIdempotent(all, term);
  }
}
