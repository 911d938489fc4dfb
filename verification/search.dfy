/** The search engine: the match predicate over products, the two-step
    search state machine (the source completes a search from a timer; here
    the deferred step is an explicit `Pending` value handed to
    `CompleteSearch`), and the prefix-based suggestion list. */
module Search {
  import opened Base
  import opened Products
  import opened Text
  import Seqs

  /** `query.toLowerCase().trim()`. */
  function Normalize(query: string): string {
    Trim(Lower(query))
  }

  /** The defined, non-empty strings of `fields`, in order:
      `.filter(Boolean)` on a list of optional strings. */
  function Present(fields: seq<Option<string>>): (r: seq<string>)
    ensures forall i :: 0 <= i < |r| ==> r[i] != "" && Some(r[i]) in fields
    ensures forall i :: 0 <= i < |fields| && TruthyString(fields[i]) ==> fields[i].value in r
    decreases |fields|
  {
    if |fields| == 0 then []
    else (if TruthyString(fields[0]) then [fields[0].value] else []) + Present(fields[1..])
  }

  /** The text the word rule searches: name, category, brand and
      description, missing or empty ones dropped, joined by single spaces and
      lower-cased. */
  function SearchableText(p: Product): string {
    Lower(Join(Present([Some(p.name), p.category, p.brand, p.description]), ' '))
  }

  /** `c` occurs in the field's value. */
  predicate FieldHas(field: Option<string>, c: char) {
    field.Some? && c in field.value
  }

  /** A letter of the searchable text comes, in one case or the other, from
      the name, the category, the brand or the description. */
  lemma SearchableTextOrigin(p: Product, c: char)
    requires IsLowerLetter(c) && c in SearchableText(p)
    ensures || c in p.name || UpperChar(c) in p.name
            || FieldHas(p.category, c) || FieldHas(p.category, UpperChar(c))
            || FieldHas(p.brand, c) || FieldHas(p.brand, UpperChar(c))
            || FieldHas(p.description, c) || FieldHas(p.description, UpperChar(c))
  {
    var fields := [Some(p.name), p.category, p.brand, p.description];
    var parts := Present(fields);
    LowerLetterOrigin(Join(parts, ' '), c);
    var d := if c in Join(parts, ' ') then c else UpperChar(c);
    assert d in Join(parts, ' ') && (d == c || d == UpperChar(c));
    JoinChar(parts, ' ', d);
    var i :| 0 <= i < |parts| && d in parts[i];
    assert Some(parts[i]) in fields;
  }

  predicate IsLongWord(w: string) { |w| > 2 }

  /** `normalizedQuery.split(' ').filter(word => word.length > 2)`. */
  function QueryWords(nq: string): (r: seq<string>)
    ensures forall i :: 0 <= i < |r| ==> |r[i]| > 2 && ' ' !in r[i] && r[i] in Split(nq, ' ')
    ensures forall w :: w in Split(nq, ' ') && |w| > 2 ==> w in r
  {
    Seqs.Filter(Split(nq, ' '), IsLongWord)
  }

  /** `field?.toLowerCase().includes(nq)`. */
  predicate FieldContains(field: Option<string>, nq: string) {
    field.Some? && Contains(Lower(field.value), nq)
  }

  /** The rule a product is kept by: the normalised query occurs in its name,
      category or brand, or one of the query's long words occurs in its
      searchable text. */
  predicate Matches(p: Product, nq: string) {
    || Contains(Lower(p.name), nq)
    || FieldContains(p.category, nq)
    || FieldContains(p.brand, nq)
    || exists i :: 0 <= i < |QueryWords(nq)| && Contains(SearchableText(p), QueryWords(nq)[i])
  }

  function MatchesQuery(nq: string): Product -> bool {
    p => Matches(p, nq)
  }

  /** The result list a completed search stores: the matching products, in
      catalog order. */
  function SearchMatches(query: string, products: seq<Product>): (r: seq<Product>)
    ensures forall i :: 0 <= i < |r| ==> Matches(r[i], Normalize(query)) && r[i] in products
    ensures forall i :: 0 <= i < |products| && Matches(products[i], Normalize(query)) ==> products[i] in r
    ensures Seqs.IsSubseq(r, products)
  {
    Seqs.FilterIsSubseq(products, MatchesQuery(Normalize(query)));
    Seqs.Filter(products, MatchesQuery(Normalize(query)))
  }

  /** A product that holds the query nowhere, and none of its long words in
      its searchable text, does not match. */
  lemma NoMatch(p: Product, nq: string)
    requires !Contains(Lower(p.name), nq) && !FieldContains(p.category, nq) && !FieldContains(p.brand, nq)
    requires forall w :: w in QueryWords(nq) ==> !Contains(SearchableText(p), w)
    ensures !Matches(p, nq)
  {
    forall i | 0 <= i < |QueryWords(nq)| ensures !Contains(SearchableText(p), QueryWords(nq)[i]) {
      assert QueryWords(nq)[i] in QueryWords(nq);
    }
  }

  /** A search over two lists is the two searches one after the other. */
  lemma SearchMatchesAppend(query: string, a: seq<Product>, b: seq<Product>)
    ensures SearchMatches(query, a + b) == SearchMatches(query, a) + SearchMatches(query, b)
  {
    Seqs.FilterAppend(a, b, MatchesQuery(Normalize(query)));
  }

  /** Any product whose lower-cased name, category or brand contains the
      normalised query is found. */
  lemma DirectMatchFound(query: string, products: seq<Product>, i: int)
    requires 0 <= i < |products|
    requires var nq := Normalize(query);
             Contains(Lower(products[i].name), nq) || FieldContains(products[i].category, nq)
             || FieldContains(products[i].brand, nq)
    ensures products[i] in SearchMatches(query, products)
  {
  }

  /** Words of two characters or fewer never make a product match: when the
      query has no longer word, only the name, category and brand tests
      count. */
  lemma ShortWordsIgnored(p: Product, nq: string)
    requires forall w :: w in Split(nq, ' ') ==> |w| <= 2
    ensures Matches(p, nq) <==>
              Contains(Lower(p.name), nq) || FieldContains(p.category, nq) || FieldContains(p.brand, nq)
  {
    if |QueryWords(nq)| > 0 {
      assert QueryWords(nq)[0] in Split(nq, ' ');
    }
  }

  /** The search state the context exposes. */
  datatype SearchState = SearchState(
    query: string,
    results: seq<Product>,
    isSearching: bool,
    hasSearched: bool)

  /** The state before any search. */
  const Initial: SearchState := SearchState("", [], false, false)

  /** A search whose completion has been scheduled: the query and the
      product list captured by the deferred callback. */
  datatype Pending = Pending(query: string, products: seq<Product>)

  /** `setSearchQuery`. */
  function SetSearchQuery(st: SearchState, query: string): (r: SearchState)
    ensures r.query == query
    ensures r.results == st.results && r.isSearching == st.isSearching && r.hasSearched == st.hasSearched
  {
    st.(query := query)
  }

  /** The synchronous part of `performSearch`. A blank query clears the
      results and the searched flag and schedules nothing; any other query
      raises both flags and schedules the completion. */
  function PerformSearch(st: SearchState, query: string, products: seq<Product>): (r: (SearchState, Option<Pending>))
    ensures r.0.query == st.query
    ensures AllSpace(query) ==>
              && r.0.results == [] && !r.0.hasSearched
              && r.0.isSearching == st.isSearching
              && r.1 == None
    ensures !AllSpace(query) ==>
              && r.0.results == st.results
              && r.0.isSearching && r.0.hasSearched
              && r.1 == Some(Pending(query, products))
  {
    TrimEmptyIff(query);
    if Trim(query) == "" then (st.(results := [], hasSearched := false), None)
    else (st.(isSearching := true, hasSearched := true), Some(Pending(query, products)))
  }

  /** The deferred part of `performSearch`: store the matches and lower the
      searching flag. */
  function CompleteSearch(st: SearchState, pending: Pending): (r: SearchState)
    ensures r.query == st.query && r.hasSearched == st.hasSearched && !r.isSearching
    ensures forall i :: 0 <= i < |r.results| ==>
              Matches(r.results[i], Normalize(pending.query)) && r.results[i] in pending.products
    ensures forall i :: 0 <= i < |pending.products| && Matches(pending.products[i], Normalize(pending.query)) ==>
              pending.products[i] in r.results
  {
    st.(results := SearchMatches(pending.query, pending.products), isSearching := false)
  }

  /** Starting and then completing a non-blank search leaves the matching
      products, searched and no longer searching. */
  lemma SearchRoundTrip(st: SearchState, query: string, products: seq<Product>)
    requires !AllSpace(query)
    ensures var (mid, pending) := PerformSearch(st, query, products);
            pending.Some? &&
            CompleteSearch(mid, pending.value) ==
              SearchState(st.query, SearchMatches(query, products), false, true)
  {
  }

  /** `clearSearch`: back to the initial state from anywhere. */
  function ClearSearch(st: SearchState): (r: SearchState)
    ensures r.query == "" && r.results == [] && !r.hasSearched && !r.isSearching
  {
    Initial
  }

  /** The name, category or brand is offered when present and its
      lower-case form starts with the normalised query. */
  predicate NameOffered(p: Product, nq: string) {
    StartsWith(Lower(p.name), nq)
  }

  predicate CategoryOffered(p: Product, nq: string) {
    p.category.Some? && StartsWith(Lower(p.category.value), nq)
  }

  predicate BrandOffered(p: Product, nq: string) {
    p.brand.Some? && StartsWith(Lower(p.brand.value), nq)
  }

  /** The values a product offers as suggestions: its name, category and
      brand, in that order, each when its lower-case form starts with the
      normalised query. */
  function ProductCandidates(p: Product, nq: string): (r: seq<string>)
    ensures |r| <= 3
  {
    (if NameOffered(p, nq) then [p.name] else [])
    + (if CategoryOffered(p, nq) then [p.category.value] else [])
    + (if BrandOffered(p, nq) then [p.brand.value] else [])
  }

  /** A product offers exactly its matching name, category and brand, one
      entry each, the name first and the brand last. */
  lemma ProductCandidatesOffered(p: Product, nq: string)
    ensures var r := ProductCandidates(p, nq);
            && |r| == (if NameOffered(p, nq) then 1 else 0) + (if CategoryOffered(p, nq) then 1 else 0)
                      + (if BrandOffered(p, nq) then 1 else 0)
            && (forall s :: s in r <==>
                  || (NameOffered(p, nq) && s == p.name)
                  || (CategoryOffered(p, nq) && s == p.category.value)
                  || (BrandOffered(p, nq) && s == p.brand.value))
            && (NameOffered(p, nq) ==> r[0] == p.name)
            && (BrandOffered(p, nq) ==> r[|r| - 1] == p.brand.value)
  {
  }

  /** A string is a suggestion for `nq` among `products`: a name, category or
      brand of one of them whose lower-case form starts with `nq`. */
  predicate IsCandidate(s: string, products: seq<Product>, nq: string) {
    exists j :: 0 <= j < |products| && s in ProductCandidates(products[j], nq)
  }

  /** Every candidate value, product by product in list order. */
  function Candidates(products: seq<Product>, nq: string): (r: seq<string>)
    ensures forall i :: 0 <= i < |r| ==> IsCandidate(r[i], products, nq)
    ensures forall s :: IsCandidate(s, products, nq) ==> s in r
    decreases |products|
  {
    if |products| == 0 then []
    else
      var rest := Candidates(products[1..], nq);
      assert forall s :: IsCandidate(s, products[1..], nq) ==> IsCandidate(s, products, nq) by {
        forall s | IsCandidate(s, products[1..], nq) ensures IsCandidate(s, products, nq) {
          var j :| 0 <= j < |products[1..]| && s in ProductCandidates(products[1..][j], nq);
          assert products[j + 1] == products[1..][j];
        }
      }
      assert forall s :: IsCandidate(s, products, nq) ==> s in ProductCandidates(products[0], nq) || IsCandidate(s, products[1..], nq) by {
        forall s | IsCandidate(s, products, nq)
          ensures s in ProductCandidates(products[0], nq) || IsCandidate(s, products[1..], nq) {
          var j :| 0 <= j < |products| && s in ProductCandidates(products[j], nq);
          if j > 0 { assert products[1..][j - 1] == products[j]; }
        }
      }
      ProductCandidates(products[0], nq) + rest
  }

  lemma {:induction false} CandidatesAppend(a: seq<Product>, b: seq<Product>, nq: string)
    ensures Candidates(a + b, nq) == Candidates(a, nq) + Candidates(b, nq)
    decreases |a|
  {
    if |a| == 0 {
      assert a + b == b;
    } else {
      assert (a + b)[1..] == a[1..] + b;
      CandidatesAppend(a[1..], b, nq);
    }
  }

  /** The candidates of four products, product by product. */
  lemma CandidatesOfFour(ps: seq<Product>, nq: string)
    requires |ps| == 4
    ensures Candidates(ps, nq) == ProductCandidates(ps[0], nq) + ProductCandidates(ps[1], nq)
                                  + ProductCandidates(ps[2], nq) + ProductCandidates(ps[3], nq)
  {
    assert Candidates(ps[..2], nq) == ProductCandidates(ps[0], nq) + ProductCandidates(ps[1], nq) by {
      CandidatesOfTwo(ps[..2], nq);
    }
    assert Candidates(ps[2..], nq) == ProductCandidates(ps[2], nq) + ProductCandidates(ps[3], nq) by {
      CandidatesOfTwo(ps[2..], nq);
    }
    assert Candidates(ps, nq) == Candidates(ps[..2], nq) + Candidates(ps[2..], nq) by {
      assert ps == ps[..2] + ps[2..];
      CandidatesAppend(ps[..2], ps[2..], nq);
    }
  }

  /** Four products each offering their name and then `c` give exactly
      those values, interleaved. */
  lemma CandidatesOfPairs(ps: seq<Product>, nq: string, c: string)
    requires |ps| == 4
    requires forall k :: 0 <= k < 4 ==> ProductCandidates(ps[k], nq) == [ps[k].name, c]
    ensures Candidates(ps, nq) == [ps[0].name, c, ps[1].name, c, ps[2].name, c, ps[3].name, c]
  {
    CandidatesOfFour(ps, nq);
  }

  lemma CandidatesOfTwo(ps: seq<Product>, nq: string)
    requires |ps| == 2
    ensures Candidates(ps, nq) == ProductCandidates(ps[0], nq) + ProductCandidates(ps[1], nq)
  {
    assert ps[1..][0] == ps[1] && ps[1..][1..] == [];
    assert Candidates(ps[1..], nq) == ProductCandidates(ps[1], nq) + [];
  }

  /** The cap on suggestions. */
  const MaxSuggestions: nat := 5

  /** `getSearchSuggestions`: nothing for a blank query or one shorter than
      two characters; otherwise the distinct candidate values in the order
      first met, at most five. */
  function GetSearchSuggestions(query: string, products: seq<Product>): (r: seq<string>)
    ensures AllSpace(query) || |query| < 2 ==> r == []
    ensures |r| <= MaxSuggestions
    ensures Seqs.Distinct(r)
    ensures forall i :: 0 <= i < |r| ==> IsCandidate(r[i], products, Normalize(query))
  {
    TrimEmptyIff(query);
    if Trim(query) == "" || |query| < 2 then []
    else
      TakenAreCandidates(products, Normalize(query));
      Seqs.Take(Seqs.Dedup(Candidates(products, Normalize(query))), MaxSuggestions)
  }

  /** The first five distinct candidates are distinct candidates. */
  lemma TakenAreCandidates(products: seq<Product>, nq: string)
    ensures var r := Seqs.Take(Seqs.Dedup(Candidates(products, nq)), MaxSuggestions);
            Seqs.Distinct(r) && forall i :: 0 <= i < |r| ==> IsCandidate(r[i], products, nq)
  {
    var d := Seqs.Dedup(Candidates(products, nq));
    var r := Seqs.Take(d, MaxSuggestions);
    assert forall i :: 0 <= i < |r| ==> r[i] == d[i];
  }

  /** The suggestions are the first distinct candidates in encounter order:
      ordered by first occurrence, no candidate met before a suggestion is
      passed over, and every candidate is offered whenever fewer than five
      distinct ones exist. */
  lemma SuggestionsFirstEncounter(query: string, products: seq<Product>)
    requires !AllSpace(query) && |query| >= 2
    ensures var r := GetSearchSuggestions(query, products);
            var c := Candidates(products, Normalize(query));
            && (forall i :: 0 <= i < |r| ==> r[i] in c)
            && (forall i, j :: 0 <= i < j < |r| ==> Seqs.IndexOf(c, r[i]) < Seqs.IndexOf(c, r[j]))
            && (forall s, j :: 0 <= j < |r| && s in c && Seqs.IndexOf(c, s) < Seqs.IndexOf(c, r[j]) ==> s in r[..j])
            && (|r| < MaxSuggestions ==> forall s :: IsCandidate(s, products, Normalize(query)) ==> s in r)
  {
    var c := Candidates(products, Normalize(query));
    var r := GetSearchSuggestions(query, products);
    assert r == Seqs.Take(Seqs.Dedup(c), MaxSuggestions) by { SuggestionsAre(query, products); }
    Seqs.TakeDedupFirst(c, MaxSuggestions, r);
  }

  /** Once the leading products alone offer five distinct candidates, the
      products after them no longer change the suggestions. */
  lemma SuggestionsSettle(query: string, xs: seq<Product>, ys: seq<Product>, expected: seq<string>)
    requires !AllSpace(query) && |query| >= 2
    requires Seqs.Dedup(Candidates(xs, Normalize(query))) == expected && |expected| == MaxSuggestions
    ensures GetSearchSuggestions(query, xs + ys) == expected
  {
    TrimEmptyIff(query);
    CandidatesAppend(xs, ys, Normalize(query));
    Seqs.TakeDedupSettled(Candidates(xs, Normalize(query)), Candidates(ys, Normalize(query)), MaxSuggestions);
  }

  /** The same, for a catalog whose first `k` records offer the five
      suggestions. */
  lemma SuggestionsFromPrefix(query: string, products: seq<Product>, k: nat, expected: seq<string>)
    requires k <= |products|
    requires !AllSpace(query) && |query| >= 2
    requires Seqs.Dedup(Candidates(products[..k], Normalize(query))) == expected && |expected| == MaxSuggestions
    ensures GetSearchSuggestions(query, products) == expected
  {
    var nq := Normalize(query);
    CandidatesSplit(products, k, nq);
    Seqs.TakeDedupSettled(Candidates(products[..k], nq), Candidates(products[k..], nq), MaxSuggestions);
    SuggestionsAre(query, products);
  }

  /** The candidates of a list are those of its first `k` products followed
      by those of the rest. */
  lemma CandidatesSplit(products: seq<Product>, k: nat, nq: string)
    requires k <= |products|
    ensures Candidates(products, nq) == Candidates(products[..k], nq) + Candidates(products[k..], nq)
  {
    assert products == products[..k] + products[k..];
    CandidatesAppend(products[..k], products[k..], nq);
  }

  /** For a query that is neither blank nor a single character, the
      suggestions are the first five distinct candidates. */
  lemma SuggestionsAre(query: string, products: seq<Product>)
    requires !AllSpace(query) && |query| >= 2
    ensures GetSearchSuggestions(query, products)
              == Seqs.Take(Seqs.Dedup(Candidates(products, Normalize(query))), MaxSuggestions)
  {
    TrimEmptyIff(query);
  }
}
