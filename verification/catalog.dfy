/** The product catalogue held by the product store: the product record,
    the search (a filter predicate followed by a sort), the distinct
    category list, and the local list updates that follow a product
    update or delete. */
module Catalog {
  import opened Wrappers
  import opened Text

  /** A product document with its id. `rating` and `createdAt` may be
      missing (both read as 0 by the sort); `createdAt` is held as epoch
      milliseconds, the value `new Date(createdAt)` compares by. */
  datatype Product = Product(
    id: string,
    name: string,
    description: string,
    category: string,
    price: int,
    rating: Option<real>,
    quantityAvailable: Option<int>,
    createdAt: Option<int>,
    updatedAt: Option<string>)

  /** The fields an admin edit may carry; `None` leaves a field as it is. */
  datatype ProductPatch = ProductPatch(
    name: Option<string>,
    description: Option<string>,
    category: Option<string>,
    price: Option<int>,
    rating: Option<real>,
    quantityAvailable: Option<int>)

  datatype ProductState = ProductState(
    products: seq<Product>,
    categories: seq<string>,
    searchResults: seq<Product>)

  // ---------------------------------------------------------------- filter

  /** The search-term half of the filter: no term, or the term occurs in
      the name or the description, ignoring case. */
  function MatchesSearch(p: Product, term: string): (b: bool)
    ensures term == [] ==> b
    ensures b <==> term == [] || Occurs(Lower(p.name), Lower(term)) || Occurs(Lower(p.description), Lower(term))
  {
    term == []
    || Contains(Lower(p.name), Lower(term))
    || Contains(Lower(p.description), Lower(term))
  }

  /** The category half of the filter. */
  function MatchesCategory(p: Product, category: string): (b: bool)
    ensures category == "all" ==> b
    ensures category != "all" ==> (b <==> p.category == category)
  {
    category == "all" || p.category == category
  }

  predicate Matches(p: Product, term: string, category: string) {
    MatchesSearch(p, term) && MatchesCategory(p, category)
  }

  /** `products.filter(...)`: the products that match, in catalogue order,
      each kept as often as it occurs. */
  function FilterProducts(products: seq<Product>, term: string, category: string): (r: seq<Product>)
    ensures forall p :: p in r ==> Matches(p, term, category)
    ensures forall p :: multiset(r)[p] == if Matches(p, term, category) then multiset(products)[p] else 0
    ensures |r| <= |products|
  {
    if products == [] then []
    else
      var rest := FilterProducts(products[1..], term, category);
      assert products == [products[0]] + products[1..];
      if Matches(products[0], term, category) then [products[0]] + rest else rest
  }

  // ------------------------------------------------------------------ sort

  /** `(p.rating || 0)`. */
  function RatingKey(p: Product): real {
    p.rating.GetOr(0.0)
  }

  /** `new Date(p.createdAt || 0)` as milliseconds. */
  function CreatedKey(p: Product): int {
    p.createdAt.GetOr(0)
  }

  /** Lexicographic order on character codes, the model's stand-in for
      `localeCompare`. */
  predicate NameLeq(a: string, b: string)
    decreases |a|
  {
    a == [] || (b != [] && (a[0] < b[0] || (a[0] == b[0] && NameLeq(a[1..], b[1..]))))
  }

  lemma {:induction false} NameLeqTotal(a: string, b: string)
    ensures NameLeq(a, b) || NameLeq(b, a)
    decreases |a|
  {
    if a != [] && b != [] && a[0] == b[0] {
      NameLeqTotal(a[1..], b[1..]);
    }
  }

  lemma {:induction false} NameLeqTransitive(a: string, b: string, c: string)
    requires NameLeq(a, b) && NameLeq(b, c)
    ensures NameLeq(a, c)
    decreases |a|
  {
    if a != [] && b != [] && c != [] && a[0] == b[0] && b[0] == c[0] {
      NameLeqTransitive(a[1..], b[1..], c[1..]);
    }
  }

  /** The comparator of `searchProducts` read as "a may stand before b"
      (the comparator returns a value <= 0). */
  function Precedes(sortBy: string, a: Product, b: Product): (r: bool)
    ensures a == b ==> r
    ensures sortBy !in ["price-low", "price-high", "rating", "newest"] ==> (r <==> NameLeq(a.name, b.name))
  {
    NameLeqTotal(a.name, a.name);
    if sortBy == "price-low" then a.price <= b.price
    else if sortBy == "price-high" then b.price <= a.price
    else if sortBy == "rating" then RatingKey(b) <= RatingKey(a)
    else if sortBy == "newest" then CreatedKey(b) <= CreatedKey(a)
    else NameLeq(a.name, b.name)
  }

  lemma PrecedesTotal(sortBy: string, a: Product, b: Product)
    ensures Precedes(sortBy, a, b) || Precedes(sortBy, b, a)
  {
    NameLeqTotal(a.name, b.name);
  }

  lemma PrecedesTransitive(sortBy: string, a: Product, b: Product, c: Product)
    requires Precedes(sortBy, a, b) && Precedes(sortBy, b, c)
    ensures Precedes(sortBy, a, c)
  {
    if sortBy !in ["price-low", "price-high", "rating", "newest"] {
      NameLeqTransitive(a.name, b.name, c.name);
    }
  }

  predicate SortedBy(sortBy: string, s: seq<Product>) {
    forall i, j :: 0 <= i < j < |s| ==> Precedes(sortBy, s[i], s[j])
  }

  /** Places `x` before the first element it may precede. */
  function Insert(sortBy: string, x: Product, s: seq<Product>): (r: seq<Product>)
    requires SortedBy(sortBy, s)
    ensures SortedBy(sortBy, r)
    ensures multiset(r) == multiset(s) + multiset{x}
    ensures |r| == |s| + 1
  {
    if s == [] then [x]
    else if Precedes(sortBy, x, s[0]) then
      assert forall j :: 0 <= j < |s| ==> Precedes(sortBy, x, s[j]) by {
        forall j | 0 <= j < |s| ensures Precedes(sortBy, x, s[j]) {
          if j > 0 { PrecedesTransitive(sortBy, x, s[0], s[j]); }
        }
      }
      SortedCons(sortBy, x, s);
      [x] + s
    else
      PrecedesTotal(sortBy, x, s[0]);
      var rest := Insert(sortBy, x, s[1..]);
      assert s == [s[0]] + s[1..];
      PrecedesAll(sortBy, s[0], x, s[1..], rest);
      SortedCons(sortBy, s[0], rest);
      [s[0]] + rest
  }

  /** A sorted list stays sorted behind an element that may precede each
      of its elements. */
  lemma SortedCons(sortBy: string, y: Product, r: seq<Product>)
    requires SortedBy(sortBy, r)
    requires forall k :: 0 <= k < |r| ==> Precedes(sortBy, y, r[k])
    ensures SortedBy(sortBy, [y] + r)
  {
    var c := [y] + r;
    forall i, j | 0 <= i < j < |c| ensures Precedes(sortBy, c[i], c[j]) {
      assert c[j] == r[j - 1];
      if i > 0 { assert c[i] == r[i - 1]; }
    }
  }

  /** `y` may precede everything in a list holding `x` and the elements of
      `t` when it may precede `x` and each element of `t`. */
  lemma PrecedesAll(sortBy: string, y: Product, x: Product, t: seq<Product>, r: seq<Product>)
    requires Precedes(sortBy, y, x)
    requires forall j :: 0 <= j < |t| ==> Precedes(sortBy, y, t[j])
    requires multiset(r) == multiset(t) + multiset{x}
    ensures forall k :: 0 <= k < |r| ==> Precedes(sortBy, y, r[k])
  {
    forall k | 0 <= k < |r| ensures Precedes(sortBy, y, r[k]) {
      assert r[k] in multiset(r);
      if r[k] != x {
        assert r[k] in multiset(t);
        var j :| 0 <= j < |t| && t[j] == r[k];
      }
    }
  }

  /** `filtered.sort(comparator)`: the same products, ordered by `sortBy`. */
  function SortProducts(sortBy: string, s: seq<Product>): (r: seq<Product>)
    ensures SortedBy(sortBy, r)
    ensures multiset(r) == multiset(s)
    ensures |r| == |s|
  {
    if s == [] then []
    else
      assert s == [s[0]] + s[1..];
      Insert(sortBy, s[0], SortProducts(sortBy, s[1..]))
  }

  /** `searchProducts(term, category, sortBy)`: the matching products,
      sorted; the same list is stored as `searchResults`. */
  function SearchProducts(st: ProductState, term: string, category: string, sortBy: string): (r: (ProductState, seq<Product>))
    ensures r.0 == st.(searchResults := r.1)
    ensures forall p :: p in r.1 ==> Matches(p, term, category)
    ensures forall p :: p in st.products && Matches(p, term, category) ==> p in r.1
    ensures forall p :: multiset(r.1)[p] == if Matches(p, term, category) then multiset(st.products)[p] else 0
    ensures SortedBy(sortBy, r.1)
  {
    var filtered := FilterProducts(st.products, term, category);
    var sorted := SortProducts(sortBy, filtered);
    assert forall p :: p in sorted <==> p in filtered by {
      assert forall p :: p in sorted <==> p in multiset(sorted);
      assert forall p :: p in filtered <==> p in multiset(filtered);
    }
    (st.(searchResults := sorted), sorted)
  }

  /** The order promised for each named sort. */
  lemma SearchOrder(st: ProductState, term: string, category: string, sortBy: string, i: int, j: int)
    requires var r := SearchProducts(st, term, category, sortBy).1; 0 <= i < j < |r|
    ensures var r := SearchProducts(st, term, category, sortBy).1;
      && (sortBy == "price-low" ==> r[i].price <= r[j].price)
      && (sortBy == "price-high" ==> r[i].price >= r[j].price)
      && (sortBy == "rating" ==> RatingKey(r[i]) >= RatingKey(r[j]))
      && (sortBy == "newest" ==> CreatedKey(r[i]) >= CreatedKey(r[j]))
      && (sortBy !in ["price-low", "price-high", "rating", "newest"] ==> NameLeq(r[i].name, r[j].name))
  {
  }

  // ------------------------------------------------------------ categories

  /** `[...new Set(xs)]` with `acc` the values already seen, in order. */
  function DistinctFrom(acc: seq<string>, xs: seq<string>): (r: seq<string>)
    requires NoDup(acc)
    ensures NoDup(r)
    ensures |acc| <= |r| && r[..|acc|] == acc
    ensures forall c :: c in r <==> c in acc || c in xs
    decreases |xs|
  {
    if xs == [] then acc
    else if xs[0] in acc then DistinctFrom(acc, xs[1..])
    else
      var r := DistinctFrom(acc + [xs[0]], xs[1..]);
      assert r[..|acc|] == r[..|acc| + 1][..|acc|];
      r
  }

  /** The values keep the order in which they are first met: one more
      value is added at the end, unless it was already seen. */
  lemma {:induction false} DistinctFromSnoc(acc: seq<string>, xs: seq<string>, x: string)
    requires NoDup(acc)
    ensures DistinctFrom(acc, xs + [x])
         == if x in DistinctFrom(acc, xs) then DistinctFrom(acc, xs) else DistinctFrom(acc, xs) + [x]
    decreases |xs|
  {
    if xs == [] {
      assert xs + [x] == [x];
      assert [x][1..] == [];
    } else {
      assert (xs + [x])[0] == xs[0];
      assert (xs + [x])[1..] == xs[1..] + [x];
      if xs[0] in acc {
        DistinctFromSnoc(acc, xs[1..], x);
      } else {
        DistinctFromSnoc(acc + [xs[0]], xs[1..], x);
      }
    }
  }

  predicate NoDup(xs: seq<string>) {
    forall i, j :: 0 <= i < j < |xs| ==> xs[i] != xs[j]
  }

  function CategoriesOf(products: seq<Product>): (r: seq<string>)
    ensures |r| == |products|
    ensures forall i :: 0 <= i < |products| ==> r[i] == products[i].category
  {
    seq(|products|, i requires 0 <= i < |products| => products[i].category)
  }

  /** The category list `fetchProducts` derives: each category of the
      catalogue exactly once. */
  function DistinctCategories(products: seq<Product>): (r: seq<string>)
    ensures NoDup(r)
    ensures forall c :: c in r <==> exists p :: p in products && p.category == c
  {
    var cats := CategoriesOf(products);
    var r := DistinctFrom([], cats);
    assert forall c :: c in cats <==> exists p :: p in products && p.category == c by {
      forall c | c in cats ensures exists p :: p in products && p.category == c {
        var i :| 0 <= i < |cats| && cats[i] == c;
        assert products[i] in products;
      }
      forall c | exists p :: p in products && p.category == c ensures c in cats {
        var p :| p in products && p.category == c;
        var i :| 0 <= i < |products| && products[i] == p;
        assert cats[i] == c;
      }
    }
    r
  }

  /** Categories are listed in the order of their first product: a
      product whose category is new adds it at the end. */
  lemma DistinctCategoriesSnoc(products: seq<Product>, p: Product)
    ensures DistinctCategories(products + [p])
         == if p.category in DistinctCategories(products) then DistinctCategories(products)
            else DistinctCategories(products) + [p.category]
  {
    assert CategoriesOf(products + [p]) == CategoriesOf(products) + [p.category];
    DistinctFromSnoc([], CategoriesOf(products), p.category);
  }

  /** The local state after `fetchProducts` loaded `docs`. */
  function FetchProducts(st: ProductState, docs: seq<Product>): (r: ProductState)
    ensures r.products == docs && r.searchResults == st.searchResults
    ensures NoDup(r.categories)
    ensures forall c :: c in r.categories <==> exists p :: p in docs && p.category == c
  {
    st.(products := docs, categories := DistinctCategories(docs))
  }

  // -------------------------------------------------------- update, delete

  /** `{ ...p, ...updatedFields, updatedAt }`. */
  function ApplyPatch(p: Product, patch: ProductPatch, now: string): (q: Product)
    ensures q.id == p.id && q.createdAt == p.createdAt && q.updatedAt == Some(now)
    ensures patch == ProductPatch(None, None, None, None, None, None) ==> q == p.(updatedAt := Some(now))
  {
    p.(name := patch.name.GetOr(p.name),
       description := patch.description.GetOr(p.description),
       category := patch.category.GetOr(p.category),
       price := patch.price.GetOr(p.price),
       rating := if patch.rating.Some? then patch.rating else p.rating,
       quantityAvailable := if patch.quantityAvailable.Some? then patch.quantityAvailable else p.quantityAvailable,
       updatedAt := Some(now))
  }

  /** The local list after `updateProduct(id, fields)`: every product with
      that id gets the fields, the others are untouched. */
  function UpdateProduct(products: seq<Product>, id: string, patch: ProductPatch, now: string): (r: seq<Product>)
    ensures |r| == |products|
    ensures forall i :: 0 <= i < |products| && products[i].id != id ==> r[i] == products[i]
    ensures forall i :: 0 <= i < |products| && products[i].id == id ==>
      && r[i].id == id
      && r[i].updatedAt == Some(now)
      && (patch.price.Some? ==> r[i].price == patch.price.value)
      && (patch.price.None? ==> r[i].price == products[i].price)
      && (patch.name.Some? ==> r[i].name == patch.name.value)
      && (patch.name.None? ==> r[i].name == products[i].name)
      && (patch.description.Some? ==> r[i].description == patch.description.value)
      && (patch.description.None? ==> r[i].description == products[i].description)
      && (patch.category.Some? ==> r[i].category == patch.category.value)
      && (patch.category.None? ==> r[i].category == products[i].category)
      && (patch.rating.Some? ==> r[i].rating == patch.rating)
      && (patch.rating.None? ==> r[i].rating == products[i].rating)
      && (patch.quantityAvailable.Some? ==> r[i].quantityAvailable == patch.quantityAvailable)
      && (patch.quantityAvailable.None? ==> r[i].quantityAvailable == products[i].quantityAvailable)
      && r[i].createdAt == products[i].createdAt
  {
    seq(|products|, i requires 0 <= i < |products| =>
      if products[i].id == id then ApplyPatch(products[i], patch, now) else products[i])
  }

  /** Applying the same edit twice leaves the list as applying it once. */
  lemma UpdateProductIdempotent(products: seq<Product>, id: string, patch: ProductPatch, now: string)
    ensures UpdateProduct(UpdateProduct(products, id, patch, now), id, patch, now)
         == UpdateProduct(products, id, patch, now)
  {
  }

  /** The local list after `deleteProduct(id)`. */
  function DeleteProduct(products: seq<Product>, id: string): (r: seq<Product>)
    ensures forall p :: p in r ==> p.id != id
    ensures forall p :: multiset(r)[p] == if p.id == id then 0 else multiset(products)[p]
  {
    if products == [] then []
    else
      assert products == [products[0]] + products[1..];
      var rest := DeleteProduct(products[1..], id);
      if products[0].id == id then rest else [products[0]] + rest
  }

  /** The filter keeps the remaining products in their order: it
      distributes over concatenation... */
  lemma {:induction false} DeleteAppend(a: seq<Product>, b: seq<Product>, id: string)
    ensures DeleteProduct(a + b, id) == DeleteProduct(a, id) + DeleteProduct(b, id)
  {
    if a != [] {
      assert (a + b)[0] == a[0];
      assert (a + b)[1..] == a[1..] + b;
      DeleteAppend(a[1..], b, id);
    } else {
      assert a + b == b;
    }
  }

  /** ...and on one product it keeps it exactly when the id differs. */
  lemma DeleteSingle(p: Product, id: string)
    ensures DeleteProduct([p], id) == if p.id == id then [] else [p]
  {
  }

  /** Deleting after editing the same id is the same as deleting. */
  lemma {:induction false} DeleteAfterUpdate(products: seq<Product>, id: string, patch: ProductPatch, now: string)
    ensures DeleteProduct(UpdateProduct(products, id, patch, now), id) == DeleteProduct(products, id)
  {
    if products != [] {
      DeleteAfterUpdate(products[1..], id, patch, now);
      assert UpdateProduct(products, id, patch, now)[1..] == UpdateProduct(products[1..], id, patch, now);
    }
  }
}
