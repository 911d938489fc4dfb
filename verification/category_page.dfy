/** The category page reached at `/products/:category`: its heading and the
    products it lists. Its size choice and add button are the shared
    `ProductCard`. */
module CategoryPage {
  import opened Base
  import opened Products
  import opened Text
  import opened Slugs
  import Seqs

  /** `\w` in a JavaScript regular expression without the `u` flag. */
  predicate IsWordChar(c: char) {
    ('a' <= c <= 'z') || ('A' <= c <= 'Z') || ('0' <= c <= '9') || c == '_'
  }

  /** Position `i` starts a word: a word character with no word character
      just before it (`\b\w`). */
  predicate WordStart(s: string, i: int)
    requires 0 <= i < |s|
  {
    IsWordChar(s[i]) && (i == 0 || !IsWordChar(s[i - 1]))
  }

  /** `s.replace(/\b\w/g, c => c.toUpperCase())`. */
  function TitleCase(s: string): (r: string)
    ensures |r| == |s|
    ensures forall i :: 0 <= i < |s| && WordStart(s, i) ==> r[i] == UpperChar(s[i]) && !IsLowerLetter(r[i])
    ensures forall i :: 0 <= i < |s| && !WordStart(s, i) ==> r[i] == s[i]
  {
    seq(|s|, i requires 0 <= i < |s| => if WordStart(s, i) then UpperChar(s[i]) else s[i])
  }

  /** `displayCategory`: an absent or empty parameter gives the empty
      heading; otherwise every `-` becomes a space and every word's first
      character is upper-cased. Only letter case differs from the
      de-dashed parameter. */
  function DisplayCategory(param: Option<string>): (r: string)
    ensures !TruthyString(param) ==> r == ""
    ensures TruthyString(param) ==>
              && |r| == |param.value|
              && (forall i :: 0 <= i < |r| ==> r[i] != '-')
              && Lower(r) == Lower(ReplaceAll(param.value, '-', ' '))
    ensures TruthyString(param) ==>
              var t := ReplaceAll(param.value, '-', ' ');
              && (forall i :: 0 <= i < |r| && WordStart(t, i) ==> r[i] == UpperChar(t[i]) && !IsLowerLetter(r[i]))
              && (forall i :: 0 <= i < |r| && !WordStart(t, i) ==> r[i] == t[i])
  {
    if TruthyString(param) then
      var t := ReplaceAll(param.value, '-', ' ');
      var r := TitleCase(t);
      assert forall i :: 0 <= i < |r| ==> Lower(r)[i] == Lower(t)[i];
      r
    else ""
  }

  /** The heading of a slug page reads, up to letter case, as the name the
      slug was made from, provided that name has no `-` of its own. */
  lemma DisplayOfSlug(name: string)
    requires name != []
    requires forall i :: 0 <= i < |name| ==> name[i] != '-'
    ensures Lower(DisplayCategory(Some(Slug(name)))) == Lower(name)
  {
    var t := ReplaceAll(Slug(name), '-', ' ');
    assert forall i :: 0 <= i < |name| ==> Lower(t)[i] == Lower(name)[i];
  }

  /** The listing test: the category's slug equals the route parameter. */
  function ListedBy(param: Option<string>): Product -> bool {
    (p: Product) => p.category.Some? && Some(Slug(p.category.value)) == param
  }

  /** `filteredProducts`: the products whose category slug is the route
      parameter, in catalog order. The source lower-cases every product's
      category, so every product must have one. */
  function PageProducts(products: seq<Product>, param: Option<string>): (r: seq<Product>)
    requires forall i :: 0 <= i < |products| ==> products[i].category.Some?
    ensures forall i :: 0 <= i < |r| ==> r[i] in products && param == Some(Slug(r[i].category.value))
    ensures forall i :: 0 <= i < |products| && param == Some(Slug(products[i].category.value)) ==>
              products[i] in r
    ensures Seqs.IsSubseq(r, products)
  {
    Seqs.FilterIsSubseq(products, ListedBy(param));
    Seqs.Filter(products, ListedBy(param))
  }

  /** The "No products found" line. */
  predicate NoProductsShown(products: seq<Product>, param: Option<string>)
    requires forall i :: 0 <= i < |products| ==> products[i].category.Some?
  {
    |PageProducts(products, param)| == 0
  }

  /** The empty-page message appears exactly when no product's category
      has the parameter as its slug. */
  lemma NoProductsIff(products: seq<Product>, param: Option<string>)
    requires forall i :: 0 <= i < |products| ==> products[i].category.Some?
    ensures NoProductsShown(products, param) <==>
              forall i :: 0 <= i < |products| ==> param != Some(Slug(products[i].category.value))
  {
    if !NoProductsShown(products, param) {
      var r := PageProducts(products, param);
      assert r[0] in products;
    }
  }
}
