/** What holds of the static catalog: its shape (ids, sizes, absent
    fields, categories, price and rating ranges) and the concrete search,
    suggestion and listing results it gives. */
module CatalogFacts {
  import opened Base
  import opened Products
  import opened Catalog
  import Text
  import Seqs
  import Slugs
  import Search
  import SearchResults
  import IndexPage
  import CategoryPage
  import Navigation

  /** The category values of the home page's drop-down, without `all` and
      `Brands`. */
  const CategoryValues: seq<string> := [
    "Bucket Hats", "Camo Long Jackets", "Caps", "Hoodies",
    "Quilted puff jacket", "Shorts", "Sweaters", "Tracksuits"
  ]

  /** The shape of one catalog record. */
  predicate Record(p: Product) {
    && p.category.Some? && p.category.value in CategoryValues
    && p.brand == None && p.originalPrice == None && p.description == None
    && p.sizes.Some? && p.availableSizes == p.sizes
    && p.price > 0.0
    && p.rating.Some? && 0.0 <= p.rating.value <= 5.0
  }

  /** A category block: ids `base + 1, base + 2, ...` in order, one category,
      every record well shaped. */
  predicate Block(s: seq<Product>, base: int, category: string) {
    forall i :: 0 <= i < |s| ==> s[i].id == base + i + 1 && s[i].category == Some(category) && Record(s[i])
  }

  lemma BucketHatsBlock() ensures |BucketHats| == 7 && Block(BucketHats, 1000, "Bucket Hats") {}
  lemma CamoLongJacketsBlock() ensures |CamoLongJackets| == 2 && Block(CamoLongJackets, 2000, "Camo Long Jackets") {}
  lemma CapsBlock() ensures |Caps| == 10 && Block(Caps, 3000, "Caps") {}
  lemma HoodiesBlock() ensures |Hoodies| == 2 && Block(Hoodies, 4000, "Hoodies") {}
  lemma QuiltedPuffJacketsBlock() ensures |QuiltedPuffJackets| == 1 && Block(QuiltedPuffJackets, 5000, "Quilted puff jacket") {}
  lemma ShortsBlock() ensures |Shorts| == 16 && Block(Shorts, 6000, "Shorts") {}
  lemma SweatersBlock() ensures |Sweaters| == 3 && Block(Sweaters, 7000, "Sweaters") {}
  lemma TracksuitsBlock() ensures |Tracksuits| == 2 && Block(Tracksuits, 8000, "Tracksuits") {}

  predicate IdsIncreasing(s: seq<Product>) {
    forall i, j :: 0 <= i < j < |s| ==> s[i].id < s[j].id
  }

  /** A run of the catalog from its start: increasing ids, none above
      `top`, every record well shaped. */
  predicate Run(s: seq<Product>, top: int) {
    && IdsIncreasing(s)
    && (forall i :: 0 <= i < |s| ==> s[i].id <= top && Record(s[i]))
  }

  lemma Grow(a: seq<Product>, top: int, b: seq<Product>, base: int, category: string)
    requires Run(a, top) && top <= base && Block(b, base, category)
    ensures Run(a + b, base + |b|)
  {
    var s := a + b;
    forall i, j | 0 <= i < j < |s| ensures s[i].id < s[j].id {
      if j >= |a| && i >= |a| {
        assert s[i] == b[i - |a|] && s[j] == b[j - |a|];
      } else if j >= |a| {
        assert s[i] == a[i] && s[j] == b[j - |a|];
      }
    }
    forall i | 0 <= i < |s| ensures s[i].id <= base + |b| && Record(s[i]) {
      if i >= |a| {
        assert s[i] == b[i - |a|];
      }
    }
  }

  /** The catalog has 43 records with strictly increasing (so pairwise
      distinct) ids, each of the shape `Record` states. */
  lemma CatalogShape()
    ensures |Items| == 43
    ensures IdsIncreasing(Items)
    ensures forall i :: 0 <= i < |Items| ==> Record(Items[i])
  {
    BucketHatsBlock();
    CamoLongJacketsBlock();
    CapsBlock();
    HoodiesBlock();
    QuiltedPuffJacketsBlock();
    ShortsBlock();
    SweatersBlock();
    TracksuitsBlock();
    var s := BucketHats;
    Grow([], 0, s, 1000, "Bucket Hats");
    assert [] + s == s;
    Grow(s, 1007, CamoLongJackets, 2000, "Camo Long Jackets");
    s := s + CamoLongJackets;
    Grow(s, 2002, Caps, 3000, "Caps");
    s := s + Caps;
    Grow(s, 3010, Hoodies, 4000, "Hoodies");
    s := s + Hoodies;
    Grow(s, 4002, QuiltedPuffJackets, 5000, "Quilted puff jacket");
    s := s + QuiltedPuffJackets;
    Grow(s, 5001, Shorts, 6000, "Shorts");
    s := s + Shorts;
    Grow(s, 6016, Sweaters, 7000, "Sweaters");
    s := s + Sweaters;
    Grow(s, 7003, Tracksuits, 8000, "Tracksuits");
    s := s + Tracksuits;
    assert s == Items;
  }

  /** No catalog record has a brand, so the home page's `Brands` choice
      lists nothing. */
  lemma BrandsListingEmpty()
    ensures IndexPage.HandleFilterChange(Items, "Brands").shown == []
  {
    CatalogShape();
    Seqs.FilterDropsAll(Items, IndexPage.Branded());
  }

  /** No catalog record has an original price, so the results panel's
      on-sale filter keeps nothing of any result list drawn from it. */
  lemma OnSaleEmpty(results: seq<Product>)
    requires forall i :: 0 <= i < |results| ==> results[i] in Items
    ensures SearchResults.ApplyFilter(results, SearchResults.OnSale) == []
  {
    CatalogShape();
    Seqs.FilterDropsAll(results, SearchResults.AdmittedBy(SearchResults.OnSale));
  }

  /** The position of the first record of each category. */
  const FirstOfCategory: seq<nat> := [0, 7, 9, 19, 21, 22, 38, 41]

  /** One record of each category, by position. */
  lemma CategoryWitnesses()
    ensures |Items| == 43
    ensures forall k :: 0 <= k < |CategoryValues| ==>
              FirstOfCategory[k] < |Items| && Items[FirstOfCategory[k]].category == Some(CategoryValues[k])
  {
    BucketHatsBlock();
    CamoLongJacketsBlock();
    CapsBlock();
    HoodiesBlock();
    QuiltedPuffJacketsBlock();
    ShortsBlock();
    SweatersBlock();
    TracksuitsBlock();
    assert Items[0] == BucketHats[0];
    assert Items[7] == CamoLongJackets[0];
    assert Items[9] == Caps[0];
    assert Items[19] == Hoodies[0];
    assert Items[21] == QuiltedPuffJackets[0];
    assert Items[22] == Shorts[0];
    assert Items[38] == Sweaters[0];
    assert Items[41] == Tracksuits[0];
  }

  /** The catalog's categories are exactly the drop-down's category values,
      each one carried by at least one record. */
  lemma CatalogCategories()
    ensures CategoryValues == IndexPage.FilterValues[1..|IndexPage.FilterValues| - 1]
    ensures forall c :: c in CategoryValues <==> exists i :: 0 <= i < |Items| && Items[i].category == Some(c)
  {
    forall c | c in CategoryValues ensures exists i :: 0 <= i < |Items| && Items[i].category == Some(c) {
      CategoryWitnesses();
      var k :| 0 <= k < |CategoryValues| && CategoryValues[k] == c;
      assert Items[FirstOfCategory[k]].category == Some(c);
    }
    assert forall i :: 0 <= i < |Items| ==> Items[i].category.value in CategoryValues by {
      CatalogShape();
    }
  }

  /** The catalog after its bucket hats, in source order. */
  const AfterBucketHats: seq<Product> :=
    CamoLongJackets + Caps + Hoodies + QuiltedPuffJackets + Shorts + Sweaters + Tracksuits

  /** A record none of whose searchable fields holds a `b` in either case. */
  predicate LacksB(p: Product) {
    && 'b' !in p.name && 'B' !in p.name
    && p.category.Some? && 'b' !in p.category.value && 'B' !in p.category.value
    && p.brand == None && p.description == None
  }

  predicate AllLackB(s: seq<Product>) {
    forall i :: 0 <= i < |s| ==> LacksB(s[i])
  }

  lemma LackBAppend(a: seq<Product>, b: seq<Product>)
    requires AllLackB(a) && AllLackB(b)
    ensures AllLackB(a + b)
  {
    forall i | 0 <= i < |a + b| ensures LacksB((a + b)[i]) {
      if i >= |a| {
        assert (a + b)[i] == b[i - |a|];
      }
    }
  }

  lemma CamoLongJacketsLackB() ensures AllLackB(CamoLongJackets) {
    assert LacksB(CamoLongJackets[0]);
    assert LacksB(CamoLongJackets[1]);
  }

  lemma CapsLackB() ensures AllLackB(Caps) {
    CapsLackB0();
    CapsLackB1();
    CapsLackB2();
  }

  lemma CapsLackB0()
    ensures |Caps| == 10 && forall i :: 0 <= i < 4 ==> LacksB(Caps[i])
  {
    assert LacksB(Caps[0]);
    assert LacksB(Caps[1]);
    assert LacksB(Caps[2]);
    assert LacksB(Caps[3]);
  }

  lemma CapsLackB1()
    ensures |Caps| == 10 && forall i :: 4 <= i < 8 ==> LacksB(Caps[i])
  {
    assert LacksB(Caps[4]);
    assert LacksB(Caps[5]);
    assert LacksB(Caps[6]);
    assert LacksB(Caps[7]);
  }

  lemma CapsLackB2()
    ensures |Caps| == 10 && forall i :: 8 <= i < 10 ==> LacksB(Caps[i])
  {
    assert LacksB(Caps[8]);
    assert LacksB(Caps[9]);
  }

  lemma HoodiesLackB() ensures AllLackB(Hoodies) {
    assert |Hoodies| == 2;
    assert LacksB(Hoodies[0]);
    assert LacksB(Hoodies[1]);
  }

  lemma QuiltedPuffJacketsLackB() ensures AllLackB(QuiltedPuffJackets) {
    assert LacksB(QuiltedPuffJackets[0]);
  }

  lemma ShortsLackB() ensures AllLackB(Shorts) {
    ShortsLackB0();
    ShortsLackB1();
    ShortsLackB2();
    ShortsLackB3();
  }

  lemma ShortsLackB0()
    ensures |Shorts| == 16 && forall i :: 0 <= i < 4 ==> LacksB(Shorts[i])
  {
    assert LacksB(Shorts[0]);
    assert LacksB(Shorts[1]);
    assert LacksB(Shorts[2]);
    assert LacksB(Shorts[3]);
  }

  lemma ShortsLackB1()
    ensures |Shorts| == 16 && forall i :: 4 <= i < 8 ==> LacksB(Shorts[i])
  {
    assert LacksB(Shorts[4]);
    assert LacksB(Shorts[5]);
    assert LacksB(Shorts[6]);
    assert LacksB(Shorts[7]);
  }

  lemma ShortsLackB2()
    ensures |Shorts| == 16 && forall i :: 8 <= i < 12 ==> LacksB(Shorts[i])
  {
    assert LacksB(Shorts[8]);
    assert LacksB(Shorts[9]);
    assert LacksB(Shorts[10]);
    assert LacksB(Shorts[11]);
  }

  lemma ShortsLackB3()
    ensures |Shorts| == 16 && forall i :: 12 <= i < 16 ==> LacksB(Shorts[i])
  {
    assert LacksB(Shorts[12]);
    assert LacksB(Shorts[13]);
    assert LacksB(Shorts[14]);
    assert LacksB(Shorts[15]);
  }

  lemma SweatersLackB() ensures AllLackB(Sweaters) {
    assert |Sweaters| == 3;
    assert LacksB(Sweaters[0]);
    assert LacksB(Sweaters[1]);
    assert LacksB(Sweaters[2]);
  }

  lemma TracksuitsLackB() ensures AllLackB(Tracksuits) {
    assert |Tracksuits| == 2;
    assert LacksB(Tracksuits[0]);
    assert LacksB(Tracksuits[1]);
  }

  lemma AfterBucketHatsLackB()
    ensures AllLackB(AfterBucketHats)
  {
    CamoLongJacketsLackB();
    CapsLackB();
    HoodiesLackB();
    QuiltedPuffJacketsLackB();
    ShortsLackB();
    SweatersLackB();
    TracksuitsLackB();
    LackBAppend(CamoLongJackets, Caps);
    var s := CamoLongJackets + Caps;
    LackBAppend(s, Hoodies);
    s := s + Hoodies;
    LackBAppend(s, QuiltedPuffJackets);
    s := s + QuiltedPuffJackets;
    LackBAppend(s, Shorts);
    s := s + Shorts;
    LackBAppend(s, Sweaters);
    s := s + Sweaters;
    LackBAppend(s, Tracksuits);
  }

  /** `bucket` normalises to itself and is its own only query word. */
  lemma BucketQuery()
    ensures Search.Normalize("bucket") == "bucket"
    ensures Text.Split("bucket", ' ') == ["bucket"]
    ensures Search.QueryWords("bucket") == ["bucket"]
  {
    assert Text.Lower("bucket") == "bucket";
    Text.TrimUnchanged("bucket");
    Text.SplitWithoutSeparator("bucket", ' ');
  }

  /** A string without `b` in either case does not contain `bucket` once
      lower-cased. */
  lemma NoBNoBucket(t: string)
    requires 'b' !in t && 'B' !in t
    ensures !Text.Contains(Text.Lower(t), "bucket")
  {
    if Text.Contains(Text.Lower(t), "bucket") {
      Text.ContainsFirstChar(Text.Lower(t), "bucket");
      Text.LowerLetterOrigin(t, 'b');
    }
  }

  /** Nor does the searchable text of a record without a `b`. */
  lemma LacksBText(p: Product)
    requires LacksB(p)
    ensures !Text.Contains(Search.SearchableText(p), "bucket")
  {
    if Text.Contains(Search.SearchableText(p), "bucket") {
      Text.ContainsFirstChar(Search.SearchableText(p), "bucket");
      Search.SearchableTextOrigin(p, 'b');
    }
  }

  /** A record without a `b` never matches the query `bucket`. */
  lemma LacksBNoMatch(p: Product)
    requires LacksB(p)
    ensures !Search.Matches(p, "bucket")
  {
    assert !Text.Contains(Text.Lower(p.name), "bucket") by {
      NoBNoBucket(p.name);
    }
    assert !Search.FieldContains(p.category, "bucket") by {
      NoBNoBucket(p.category.value);
    }
    assert Search.QueryWords("bucket") == ["bucket"] by {
      BucketQuery();
    }
    assert !Text.Contains(Search.SearchableText(p), "bucket") by {
      LacksBText(p);
    }
    Search.NoMatch(p, "bucket");
  }

  /** A name starting `Bucket` matches the query `bucket`. */
  lemma BucketNameMatches(p: Product)
    requires |p.name| >= 6 && p.name[..6] == "Bucket"
    ensures Search.Matches(p, "bucket")
  {
    Text.LowerPrefix(p.name, 6);
    assert Text.Lower("Bucket") == "bucket";
    Text.StartsWithContains(Text.Lower(p.name), "bucket");
  }

  lemma BucketHatsAllMatch()
    ensures Search.SearchMatches("bucket", BucketHats) == BucketHats
  {
    assert forall i :: 0 <= i < |BucketHats| ==> |BucketHats[i].name| >= 6 && BucketHats[i].name[..6] == "Bucket" by {
      BucketHatNames();
    }
    BucketNamedAllMatch(BucketHats);
  }

  /** Each bucket hat's name starts with `Bucket`, checked one record at a
      time. */
  lemma BucketHatNames()
    ensures forall i :: 0 <= i < |BucketHats| ==> |BucketHats[i].name| >= 6 && BucketHats[i].name[..6] == "Bucket"
  {
    assert |BucketHats| == 7;
    assert BucketHats[0].name[..6] == "Bucket";
    assert BucketHats[1].name[..6] == "Bucket";
    assert BucketHats[2].name[..6] == "Bucket";
    assert BucketHats[3].name[..6] == "Bucket";
    assert BucketHats[4].name[..6] == "Bucket";
    assert BucketHats[5].name[..6] == "Bucket";
    assert BucketHats[6].name[..6] == "Bucket";
  }

  /** Records whose names all start with `Bucket` all survive the search
      for `bucket`. */
  lemma BucketNamedAllMatch(ps: seq<Product>)
    requires forall i :: 0 <= i < |ps| ==> |ps[i].name| >= 6 && ps[i].name[..6] == "Bucket"
    ensures Search.SearchMatches("bucket", ps) == ps
  {
    assert Search.Normalize("bucket") == "bucket" by {
      BucketQuery();
    }
    forall i | 0 <= i < |ps| ensures Search.MatchesQuery("bucket")(ps[i]) {
      BucketNameMatches(ps[i]);
    }
    Seqs.FilterKeepsAll(ps, Search.MatchesQuery("bucket"));
  }

  lemma AfterBucketHatsNoMatch()
    ensures Search.SearchMatches("bucket", AfterBucketHats) == []
  {
    assert Search.Normalize("bucket") == "bucket" by {
      BucketQuery();
    }
    AfterBucketHatsLackB();
    forall i | 0 <= i < |AfterBucketHats| ensures !Search.MatchesQuery("bucket")(AfterBucketHats[i]) {
      LacksBNoMatch(AfterBucketHats[i]);
    }
    Seqs.FilterDropsAll(AfterBucketHats, Search.MatchesQuery("bucket"));
  }

  lemma ItemsSplit()
    ensures Items == BucketHats + AfterBucketHats
  {
  }

  /** Searching the catalog for `bucket` finds exactly the seven bucket
      hats, ids 1001 to 1007, in catalog order. */
  lemma SearchBucket()
    ensures Search.SearchMatches("bucket", Items) == BucketHats
    ensures forall i :: 0 <= i < |BucketHats| ==> BucketHats[i].id == 1001 + i
  {
    BucketHatsBlock();
    ItemsSplit();
    Search.SearchMatchesAppend("bucket", BucketHats, AfterBucketHats);
    BucketHatsAllMatch();
    AfterBucketHatsNoMatch();
    assert BucketHats + [] == BucketHats;
  }

  /** A new name followed by a category already seen adds just the name. */
  lemma DedupNameThenCategory<T>(xs: seq<T>, x: T, h: T)
    requires h in xs && x !in xs
    ensures Seqs.Dedup(xs + [x, h]) == Seqs.Dedup(xs) + [x]
  {
    assert Seqs.Dedup(xs + [x]) == Seqs.Dedup(xs) + [x] by { Seqs.DedupSnoc(xs, x); }
    assert Seqs.Dedup((xs + [x]) + [h]) == Seqs.Dedup(xs + [x]) by {
      assert h in xs + [x];
      Seqs.DedupSnoc(xs + [x], h);
    }
    assert xs + [x, h] == (xs + [x]) + [h];
  }

  /** Four names, each followed by their shared category, de-duplicate to
      the first name, the category, then the other three names. */
  lemma DedupInterleaved<T>(a: T, b: T, c: T, d: T, h: T)
    requires a != h && b != h && c != h && d != h
    requires a != b && a != c && a != d && b != c && b != d && c != d
    ensures Seqs.Dedup([a, h, b, h, c, h, d, h]) == [a, h, b, c, d]
  {
    var xs := [a, h, b, h, c, h];
    assert Seqs.Dedup(xs) == [a, h, b, c] by { DedupSix(a, b, c, h); }
    assert Seqs.Dedup(xs + [d, h]) == Seqs.Dedup(xs) + [d] by { DedupNameThenCategory(xs, d, h); }
    assert xs + [d, h] == [a, h, b, h, c, h, d, h];
    assert [a, h, b, c] + [d] == [a, h, b, c, d];
  }

  lemma DedupSix<T>(a: T, b: T, c: T, h: T)
    requires a != h && b != h && c != h
    requires a != b && a != c && b != c
    ensures Seqs.Dedup([a, h, b, h, c, h]) == [a, h, b, c]
  {
    var xs := [a, h, b, h];
    assert Seqs.Dedup(xs) == [a, h, b] by { DedupFour(a, b, h); }
    assert Seqs.Dedup(xs + [c, h]) == Seqs.Dedup(xs) + [c] by { DedupNameThenCategory(xs, c, h); }
    assert xs + [c, h] == [a, h, b, h, c, h];
    assert [a, h, b] + [c] == [a, h, b, c];
  }

  lemma DedupFour<T>(a: T, b: T, h: T)
    requires a != h && b != h && a != b
    ensures Seqs.Dedup([a, h, b, h]) == [a, h, b]
  {
    var xs := [a, h, b];
    assert Seqs.Dedup(xs) == xs by { Seqs.DedupOfDistinct(xs); }
    assert Seqs.Dedup(xs + [h]) == Seqs.Dedup(xs) by { Seqs.DedupSnoc(xs, h); }
    assert xs + [h] == [a, h, b, h];
  }



  /** A bucket hat offers its name and its category for `buc`. */
  lemma BucCandidates(p: Product)
    requires |p.name| >= 3 && p.name[..3] == "Buc"
    requires p.category == Some("Bucket Hats") && p.brand == None
    ensures Search.ProductCandidates(p, "buc") == [p.name, "Bucket Hats"]
  {
    Text.LowerPrefix(p.name, 3);
    Text.LowerPrefix("Bucket Hats", 3);
    assert Text.Lower("Buc") == "buc";
  }

  lemma FirstFourCandidates()
    ensures Search.Candidates(BucketHats[..4], "buc")
              == [BucketHats[0].name, "Bucket Hats", BucketHats[1].name, "Bucket Hats",
                  BucketHats[2].name, "Bucket Hats", BucketHats[3].name, "Bucket Hats"]
  {
    var xs := BucketHats[..4];
    forall k | 0 <= k < 4 ensures Search.ProductCandidates(xs[k], "buc") == [xs[k].name, "Bucket Hats"] {
      BucHat(k);
    }
    Search.CandidatesOfPairs(xs, "buc", "Bucket Hats");
  }

  /** The bucket hat at `k` offers its name and its category for `buc`. */
  lemma BucHat(k: nat)
    requires k < 4
    ensures Search.ProductCandidates(BucketHats[k], "buc") == [BucketHats[k].name, "Bucket Hats"]
  {
    assert BucketHats[k].name[..3] == "Buc";
    BucCandidates(BucketHats[k]);
  }

  /** The suggestions for `buc`: the first four bucket hats' names with the
      category after the first, which already fills the five places. */
  lemma SuggestionsBuc()
    ensures Search.GetSearchSuggestions("buc", Items)
              == ["Bucket Hat 1", "Bucket Hats", "Bucket Hat 2", "Bucket Hat 3", "Bucket Hat 4"]
  {
    var expected := ["Bucket Hat 1", "Bucket Hats", "Bucket Hat 2", "Bucket Hat 3", "Bucket Hat 4"];
    assert Search.Normalize("buc") == "buc" && !Text.AllSpace("buc") by { BucQuery(); }
    assert Seqs.Dedup(Search.Candidates(Items[..4], "buc")) == expected by {
      FirstFourOfItems();
      FirstFourDedup();
    }
    Search.SuggestionsFromPrefix("buc", Items, 4, expected);
  }

  /** The catalog opens with the bucket hats. */
  lemma FirstFourOfItems()
    ensures |Items| >= 4 && Items[..4] == BucketHats[..4]
  {
    ItemsSplit();
    Seqs.PrefixOfAppend(BucketHats, AfterBucketHats, 4);
  }

  /** `buc` is its own normal form and is not blank. */
  lemma BucQuery()
    ensures Search.Normalize("buc") == "buc" && !Text.AllSpace("buc")
  {
    assert Text.Lower("buc") == "buc";
    Text.TrimUnchanged("buc");
    Text.TrimEmptyIff("buc");
  }

  /** The first four bucket hats already offer five distinct suggestions. */
  lemma FirstFourDedup()
    ensures Seqs.Dedup(Search.Candidates(BucketHats[..4], "buc"))
              == ["Bucket Hat 1", "Bucket Hats", "Bucket Hat 2", "Bucket Hat 3", "Bucket Hat 4"]
  {
    FirstFourCandidates();
    assert BucketHats[0].name == "Bucket Hat 1" && BucketHats[1].name == "Bucket Hat 2";
    assert BucketHats[2].name == "Bucket Hat 3" && BucketHats[3].name == "Bucket Hat 4";
    DedupInterleaved("Bucket Hat 1", "Bucket Hat 2", "Bucket Hat 3", "Bucket Hat 4", "Bucket Hats");
  }

  /** No two category values have the same length, so no two share a slug. */
  lemma CategorySlugsDistinct(a: string, b: string)
    requires a in CategoryValues && b in CategoryValues
    requires Slugs.Slug(a) == Slugs.Slug(b)
    ensures a == b
  {
    assert |a| == |b|;
  }

  /** Following a category item of the menu lists the same records as
      choosing that category in the home page's drop-down, and at least
      one. */
  lemma NavItemListsCategory(c: string)
    requires c in CategoryValues
    ensures forall i :: 0 <= i < |Items| ==> Items[i].category.Some?
    ensures CategoryPage.PageProducts(Items, Some(Slugs.Slug(c))) == IndexPage.HandleFilterChange(Items, c).shown
    ensures |CategoryPage.PageProducts(Items, Some(Slugs.Slug(c)))| > 0
  {
    CatalogShape();
    assert c != "all" && c != "Brands";
    var listed := CategoryPage.ListedBy(Some(Slugs.Slug(c)));
    forall i | 0 <= i < |Items| ensures listed(Items[i]) == IndexPage.InCategory(c)(Items[i]) {
      if listed(Items[i]) {
        CategorySlugsDistinct(Items[i].category.value, c);
      }
    }
    Seqs.FilterCongruence(Items, listed, IndexPage.InCategory(c));
    CatalogCategories();
    var i :| 0 <= i < |Items| && Items[i].category == Some(c);
    assert Items[i] in IndexPage.HandleFilterChange(Items, c).shown;
  }

  /** Two equally long names whose letters at one position differ have
      different slugs. */
  lemma SlugsDiffer(a: string, b: string, i: nat)
    requires i < |a| == |b| && a[i] != ' ' && b[i] != ' ' && Text.LowerChar(a[i]) != Text.LowerChar(b[i])
    ensures Slugs.Slug(a) != Slugs.Slug(b)
  {
    assert Slugs.Slug(a)[i] != Slugs.Slug(b)[i];
  }

  /** A menu item whose slug is no category's slug leads to the "No
      products found" page. */
  lemma UnlistedItem(item: string)
    requires forall k :: 0 <= k < |CategoryValues| ==> Slugs.Slug(item) != Slugs.Slug(CategoryValues[k])
    ensures forall i :: 0 <= i < |Items| ==> Items[i].category.Some?
    ensures CategoryPage.NoProductsShown(Items, Some(Slugs.Slug(item)))
  {
    CatalogShape();
    CategoryPage.NoProductsIff(Items, Some(Slugs.Slug(item)));
  }

  /** The menu's photoshoot item leads to an empty category page: the
      catalog has nothing under that name. */
  lemma PhotoshootPageEmpty()
    ensures forall i :: 0 <= i < |Items| ==> Items[i].category.Some?
    ensures Navigation.ApparelItems[4] == "Nkoyoyo Photohoot"
    ensures CategoryPage.NoProductsShown(Items, Some(Slugs.Slug("Nkoyoyo Photohoot")))
  {
    SlugsDiffer("Nkoyoyo Photohoot", "Camo Long Jackets", 0);
    UnlistedItem("Nkoyoyo Photohoot");
  }

  /** The menu's sneakers item leads to an empty category page. */
  lemma SneakersPageEmpty()
    ensures forall i :: 0 <= i < |Items| ==> Items[i].category.Some?
    ensures CategoryPage.NoProductsShown(Items, Some(Slugs.Slug("Sneakers")))
  {
    SlugsDiffer("Sneakers", "Sweaters", 1);
    UnlistedItem("Sneakers");
  }

  lemma SandalsPageEmpty()
    ensures forall i :: 0 <= i < |Items| ==> Items[i].category.Some?
    ensures CategoryPage.NoProductsShown(Items, Some(Slugs.Slug("Slides & Sandals")))
  {
    UnlistedItem("Slides & Sandals");
  }

  lemma BootsPageEmpty()
    ensures forall i :: 0 <= i < |Items| ==> Items[i].category.Some?
    ensures CategoryPage.NoProductsShown(Items, Some(Slugs.Slug("Football Boots")))
  {
    UnlistedItem("Football Boots");
  }

  lemma ViewAllPageEmpty()
    ensures forall i :: 0 <= i < |Items| ==> Items[i].category.Some?
    ensures CategoryPage.NoProductsShown(Items, Some(Slugs.Slug("View All")))
  {
    SlugsDiffer("View All", "Sweaters", 0);
    UnlistedItem("View All");
  }

  /** Every footwear item of the menu leads to an empty category page. */
  lemma FootwearPagesEmpty()
    ensures forall i :: 0 <= i < |Items| ==> Items[i].category.Some?
    ensures forall k :: 0 <= k < |Navigation.FootwearItems| ==>
              CategoryPage.NoProductsShown(Items, Some(Slugs.Slug(Navigation.FootwearItems[k])))
  {
    SneakersPageEmpty();
    SandalsPageEmpty();
    BootsPageEmpty();
    ViewAllPageEmpty();
    assert Navigation.FootwearItems == ["Sneakers", "Slides & Sandals", "Football Boots", "View All"];
  }
}
