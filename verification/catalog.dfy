/**
 * The catalogue page: a list of listings, filtered by the
 * category named in the address (`?categoria=`), with one badge per
 * category and a "Todos" badge to clear the filter.
 */
module Catalog {
  import opened Wrappers
  import opened Domain
  import opened Text
  import opened ListingCard

  /** The listings of category `c`, in their order. */
  function OfCategory(xs: seq<CardListing>, c: string): (r: seq<CardListing>)
    ensures |r| <= |xs|
    ensures forall k :: 0 <= k < |r| ==> r[k].category == c
    ensures forall x :: multiset(r)[x] == if x.category == c then multiset(xs)[x] else 0
    ensures IsSubsequence(r, xs)
  {
    if xs == [] then []
    else
      var rest := OfCategory(xs[1..], c);
      assert xs == [xs[0]] + xs[1..];
      if xs[0].category == c then
        var r := [xs[0]] + rest;
        assert r[1..] == rest;
        r
      else
        rest
  }

  /**
   * `activeCategory ? listings.filter(...) : listings`: no parameter, or
   * an empty one, shows everything; otherwise exactly the listings of that
   * category, in their order.
   */
  function Filter(xs: seq<CardListing>, active: Option<string>): (r: seq<CardListing>)
    ensures |r| <= |xs|
    ensures active.None? || active == Some("") ==> r == xs
    ensures active.Some? && active.value != "" ==> r == OfCategory(xs, active.value)
  {
    if active.None? || active.value == "" then xs else OfCategory(xs, active.value)
  }

  class Page {
    /** The query parameters of the address. */
    var params: map<string, string>

    constructor (params: map<string, string>)
      ensures this.params == params
    {
      this.params := params;
    }

    /** `searchParams.get("categoria")`. */
    function Active(): Option<string>
      reads this
    {
      if "categoria" in params then Some(params["categoria"]) else None
    }

    /** The "Todos" badge is highlighted exactly when no category is chosen. */
    predicate AllHighlighted()
      reads this
    {
      Active().None? || Active() == Some("")
    }

    /** The badge of category `c` is highlighted when its name is the parameter. */
    predicate Highlighted(c: Category)
      reads this
    {
      Active() == Some(CategoryName(c))
    }

    /** "Todos": the query is cleared; every listing is shown and only "Todos" is highlighted. */
    method ClickAll(xs: seq<CardListing>)
      modifies this
      ensures params == map[]
      ensures Filter(xs, Active()) == xs
      ensures AllHighlighted() && forall c :: !Highlighted(c)
    {
      params := map[];
    }

    /**
     * A category badge: the query becomes just that category; the listings
     * shown are exactly that category's and only its badge is highlighted.
     */
    method ClickCategory(xs: seq<CardListing>, c: Category)
      modifies this
      ensures params == map["categoria" := CategoryName(c)]
      ensures Filter(xs, Active()) == OfCategory(xs, CategoryName(c))
      ensures !AllHighlighted() && forall d :: Highlighted(d) <==> d == c
    {
      params := map["categoria" := CategoryName(c)];
      assert Active() == Some(CategoryName(c));
      forall d ensures Highlighted(d) <==> d == c {
        if Highlighted(d) {
          assert ParseCategory(CategoryName(c)) == Some(d);
        }
      }
    }
  }
}
