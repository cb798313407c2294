/** The product catalogue (`ProductService`): look-up, category and text queries, the category
    list and the featured products. The catalogue is an array that the featured query sorts in
    place, so every later query, and every holder of the array returned by `GetProducts`, sees
    the new order. */
module Catalog {
  import opened Wrappers
  import opened Seqs
  import opened Text
  import opened Models
  import opened Sorting

  /** How many products the featured query returns. */
  const FEATURED_COUNT := 4

  function Rating(p: Product): int
  {
    p.rating
  }

  function Category(p: Product): string
  {
    p.category
  }

  function HasProductId(id: int): Product -> bool
  {
    (p: Product) => p.id == id
  }

  /** The category test for an already lower-cased category. */
  function InCategory(lower: string): Product -> bool
  {
    (p: Product) => Lower(p.category) == lower
  }

  /** The search test for an already lower-cased term: name or description. */
  function ProductMatches(lower: string): Product -> bool
  {
    (p: Product) => Includes(Lower(p.name), lower) || Includes(Lower(p.description), lower)
  }

  /** The categories of the products, one per product, in product order. */
  function Categories(products: seq<Product>): (r: seq<string>)
    ensures |r| == |products| && forall i :: 0 <= i < |r| ==> r[i] == products[i].category
  {
    seq(|products|, (i: int) requires 0 <= i < |products| => products[i].category)
  }

  /** A product whose lower-cased name or description contains the lower-cased term. */
  ghost predicate ProductMentions(p: Product, lower: string)
  {
    Occurs(Lower(p.name), lower) || Occurs(Lower(p.description), lower)
  }

  /** The featured products come first in the sorted order, and none of them is rated below a
      product that was not returned. */
  lemma FeaturedAreTopRated(sorted: seq<Product>)
    requires SortedDesc(sorted, Rating)
    ensures var featured := Take(sorted, FEATURED_COUNT);
            forall i, j :: 0 <= i < |featured| <= j < |sorted| ==> featured[i].rating >= sorted[j].rating
  {
  }

  class ProductService {
    var products: array<Product>

    /** The catalogue starts with the seed products. */
    constructor(seed: seq<Product>)
      ensures fresh(products) && products[..] == seed
    {
      products := new Product[|seed|](i requires 0 <= i < |seed| => seed[i]);
    }

    /** `getProducts`: the catalogue array itself, not a copy. */
    method GetProducts() returns (r: array<Product>)
      ensures r == products
    {
      r := products;
    }

    /** `getProductById`: the first product with the id, if any. */
    function GetProductById(id: int): (r: Option<Product>)
      reads this, products
      ensures r.None? <==> forall j :: 0 <= j < products.Length ==> products[j].id != id
      ensures r.Some? ==> exists k :: 0 <= k < products.Length && products[k] == r.value &&
                                      products[k].id == id && forall j :: 0 <= j < k ==> products[j].id != id
    {
      Find(products[..], HasProductId(id))
    }

    /** `getProductsByCategory`: the products whose category equals `category`, compared in lower
        case, in catalogue order. */
    function GetProductsByCategory(category: string): (r: seq<Product>)
      reads this, products
      ensures IsSubsequence(r, products[..])
      ensures forall p :: p in r <==> p in products[..] && Lower(p.category) == Lower(category)
      ensures forall p :: multiset(r)[p] == if Lower(p.category) == Lower(category) then multiset(products[..])[p] else 0
    {
      var s := products[..];
      FilterIsSubsequence(s, InCategory(Lower(category)));
      forall p ensures p in Filter(s, InCategory(Lower(category))) <==>
                       p in s && Lower(p.category) == Lower(category) {
        FilterMembership(s, InCategory(Lower(category)), p);
      }
      forall p ensures multiset(Filter(s, InCategory(Lower(category))))[p] ==
                       if Lower(p.category) == Lower(category) then multiset(s)[p] else 0 {
        FilterMultiset(s, InCategory(Lower(category)), p);
      }
      Filter(s, InCategory(Lower(category)))
    }

    /** `searchProducts`: the products whose name or description contains `term`, compared in
        lower case, in catalogue order; the empty term returns the whole catalogue. */
    function SearchProducts(term: string): (r: seq<Product>)
      reads this, products
      ensures IsSubsequence(r, products[..])
      ensures forall p :: p in r <==> p in products[..] && ProductMentions(p, Lower(term))
      ensures forall p :: multiset(r)[p] == if ProductMentions(p, Lower(term)) then multiset(products[..])[p] else 0
      ensures term == "" ==> r == products[..]
    {
      var s := products[..];
      var lower := Lower(term);
      FilterIsSubsequence(s, ProductMatches(lower));
      forall p ensures p in Filter(s, ProductMatches(lower)) <==> p in s && ProductMentions(p, lower) {
        FilterMembership(s, ProductMatches(lower), p);
        IncludesIff(Lower(p.name), lower);
        IncludesIff(Lower(p.description), lower);
      }
      forall p ensures multiset(Filter(s, ProductMatches(lower)))[p] ==
                       if ProductMentions(p, lower) then multiset(s)[p] else 0 {
        FilterMultiset(s, ProductMatches(lower), p);
        IncludesIff(Lower(p.name), lower);
        IncludesIff(Lower(p.description), lower);
      }
      if term == "" then
        forall i | 0 <= i < |s| ensures ProductMatches(lower)(s[i]) {
          assert OccursAt(Lower(s[i].name), lower, 0);
          IncludesIff(Lower(s[i].name), lower);
        }
        FilterKeepsAll(s, ProductMatches(lower));
        Filter(s, ProductMatches(lower))
      else
        Filter(s, ProductMatches(lower))
    }

    /** `getCategories`: every product's category exactly once, in order of first occurrence in
        the catalogue. */
    function GetCategories(): (r: seq<string>)
      reads this, products
      ensures forall c :: c in r <==> exists i :: 0 <= i < products.Length && products[i].category == c
      ensures forall i, j :: 0 <= i < j < |r| ==> r[i] != r[j]
      ensures forall i :: 0 <= i < |r| ==> r[i] in Categories(products[..])
      ensures forall i, j :: 0 <= i < j < |r| ==>
                IndexOf(Categories(products[..]), r[i]) < IndexOf(Categories(products[..]), r[j])
    {
      var cs := Categories(products[..]);
      DistinctFirstOccurrenceOrder(cs);
      forall c ensures c in Distinct(cs) <==> exists i :: 0 <= i < products.Length && products[i].category == c {
        if c in Distinct(cs) {
          var k :| 0 <= k < |Distinct(cs)| && Distinct(cs)[k] == c;
          var i :| 0 <= i < |cs| && cs[i] == c;
          assert products[i].category == c;
        }
        if exists i :: 0 <= i < products.Length && products[i].category == c {
          var i :| 0 <= i < products.Length && products[i].category == c;
          assert cs[i] == c;
        }
      }
      Distinct(cs)
    }

    /** `getFeaturedProducts`: sorts the catalogue in place by descending rating (ties keep their
        order) and returns its first four products, or all of them when there are fewer. */
    method GetFeaturedProducts() returns (featured: seq<Product>)
      modifies products
      ensures products[..] == SortDesc(old(products[..]), Rating)
      ensures multiset(products[..]) == multiset(old(products[..])) && SortedDesc(products[..], Rating)
      ensures featured == Take(products[..], FEATURED_COUNT)
      ensures |featured| == if products.Length < FEATURED_COUNT then products.Length else FEATURED_COUNT
      ensures forall i, j :: 0 <= i < |featured| <= j < products.Length ==> featured[i].rating >= products[j].rating
    {
      InsertionSortDesc(products, Rating);
      SortDescSorted(old(products[..]), Rating);
      FeaturedAreTopRated(products[..]);
      featured := Take(products[..], FEATURED_COUNT);
    }
  }
}
