/**
 * The catalog page's client-side pagination: the `page` and `itemsPerPage`
 * state, the two handlers that change it, the visible slice of the product
 * list, the page count shown in the chip and the pagination control, and
 * when that control is shown.
 */
module ProductListPage {

  function Min(a: int, b: int): int {
    if a <= b then a else b
  }

  /** Array.prototype.slice's reading of an index: negative counts from the end, then clamp. */
  function RelativeIndex(i: int, len: nat): (k: nat)
    ensures k <= len
    ensures 0 <= i ==> k == Min(i, len)
  {
    if i < 0 then (if len + i < 0 then 0 else len + i) else if i > len then len else i
  }

  /** `s.slice(start, end)`. */
  function JsSlice<T>(s: seq<T>, start: int, end: int): (r: seq<T>)
    ensures |r| <= |s|
    ensures 0 <= start <= end ==> r == s[Min(start, |s|)..Min(end, |s|)]
  {
    var lo, hi := RelativeIndex(start, |s|), RelativeIndex(end, |s|);
    if lo < hi then s[lo..hi] else []
  }

  /**
   * `paginatedProducts`: the whole list when the "all" option is selected,
   * otherwise `products.slice((page - 1) * n, page * n)`.
   */
  function Paginated<T>(products: seq<T>, page: int, n: int): (r: seq<T>)
    ensures n == |products| ==> r == products
    ensures n != |products| && page >= 1 && n >= 0 ==>
      var lo, hi := Min((page - 1) * n, |products|), Min(page * n, |products|);
      lo <= hi && r == products[lo..hi]
  {
    if n == |products| then products
    else
      MulSucc(page, n);
      assert page >= 1 && n >= 0 ==> 0 <= (page - 1) * n <= page * n;
      JsSlice(products, (page - 1) * n, page * n)
  }

  /** `Math.max(1, Math.ceil(len / n))` for a positive `n`. */
  function PageCount(len: nat, n: int): (c: nat)
    requires n > 0
    ensures c >= 1
    ensures len == 0 ==> c == 1
    ensures len > 0 ==> (c - 1) * n < len <= c * n
  {
    var q := (len + n - 1) / n;
    assert len + n - 1 == q * n + (len + n - 1) % n;
    if q < 1 then 1 else q
  }

  /** The pagination control is rendered iff there is more than one page's worth. */
  predicate ShowsPagination(itemsPerPage: int, len: nat) {
    itemsPerPage < len
  }

  /** The values the items-per-page select offers: 10, 20, 50 and "all". */
  predicate IsItemsPerPageOption(n: int, len: nat) {
    n == 10 || n == 20 || n == 50 || n == len
  }

  /** The control is hidden exactly when everything fits on one page, which is then the whole list. */
  lemma HiddenControlSinglePage<T>(products: seq<T>, n: int)
    requires n > 0 && !ShowsPagination(n, |products|)
    ensures PageCount(|products|, n) == 1
    ensures Paginated(products, 1, n) == products
  {
    var len := |products|;
    var c := PageCount(len, n);
    if c >= 2 {
      MulMonotone(1, c - 1, n);
    }
    FirstPage(products, n);
    assert products[..len] == products;
  }

  /** A shown control always offers at least two pages. */
  lemma ShownControlSeveralPages(len: nat, n: int)
    requires n > 0 && ShowsPagination(n, len)
    ensures PageCount(len, n) >= 2
  {
  }

  /** After the reset to page 1 the visible list is the first `n` products. */
  lemma FirstPage<T>(products: seq<T>, n: int)
    requires n >= 0
    ensures Paginated(products, 1, n) == products[..Min(n, |products|)]
  {
  }

  /** A page within the page count is never empty, unless the list is. */
  lemma NoEmptyPage<T>(products: seq<T>, page: int, n: int)
    requires n > 0 && 1 <= page <= PageCount(|products|, n) && |products| > 0
    ensures Paginated(products, page, n) != []
  {
    var c := PageCount(|products|, n);
    if n != |products| {
      MulMonotone(page - 1, c - 1, n);
      MulMonotone(0, page - 1, n);
      MulSucc(page, n);
      var start, end := (page - 1) * n, page * n;
      assert 0 <= start < |products| && start < end;
      var lo, hi := Min(start, |products|), Min(end, |products|);
      assert lo < hi;
      assert Paginated(products, page, n) == products[lo..hi];
    }
  }

  /** Pages 1 to k, concatenated. */
  function PagesUpTo<T>(products: seq<T>, n: int, k: nat): seq<T>
  {
    if k == 0 then [] else PagesUpTo(products, n, k - 1) + Paginated(products, k, n)
  }

  lemma MulMonotone(a: int, b: int, n: int)
    requires a <= b && n >= 0
    ensures a * n <= b * n
  {
    assert b * n - a * n == (b - a) * n;
  }

  lemma MulSucc(k: int, n: int)
    ensures k * n == (k - 1) * n + n
  {
  }

  lemma {:induction false} PagesUpToPrefix<T>(products: seq<T>, n: int, k: nat)
    requires n > 0 && n != |products|
    ensures PagesUpTo(products, n, k) == products[..Min(k * n, |products|)]
  {
    if k > 0 {
      PagesUpToPrefix(products, n, k - 1);
      MulMonotone(0, k - 1, n);
      MulSucc(k, n);
      var lo, hi := Min((k - 1) * n, |products|), Min(k * n, |products|);
      var prev, page := PagesUpTo(products, n, k - 1), Paginated(products, k, n);
      assert prev == products[..lo];
      assert page == products[lo..hi];
      PrefixThenSlice(products, lo, hi);
    }
  }

  lemma PrefixThenSlice<T>(s: seq<T>, lo: int, hi: int)
    requires 0 <= lo <= hi <= |s|
    ensures s[..lo] + s[lo..hi] == s[..hi]
  {
  }

  /** Concatenating pages 1 to the page count gives back the whole list. */
  lemma PagesConcatenate<T>(products: seq<T>, n: int)
    requires n > 0
    ensures PagesUpTo(products, n, PageCount(|products|, n)) == products
  {
    var c := PageCount(|products|, n);
    if n == |products| {
      assert c == 1;
    } else {
      PagesUpToPrefix(products, n, c);
      assert c * n >= |products|;
    }
  }

  /** The state the page keeps: the fetched list, the current page and the page size. */
  class ListPage<T> {
    var products: seq<T>
    var page: int
    var itemsPerPage: int

    /** The page stays within the page count, and the page size is one the select offers. */
    ghost predicate Valid()
      reads this
    {
      && page >= 1
      && IsItemsPerPageOption(itemsPerPage, |products|)
      && (itemsPerPage > 0 ==> page <= PageCount(|products|, itemsPerPage))
    }

    /** The list as fetched, on page 1 with 10 items per page. */
    constructor (products: seq<T>)
      ensures Valid()
      ensures this.products == products && page == 1 && itemsPerPage == 10
    {
      this.products := products;
      page := 1;
      itemsPerPage := 10;
    }

    /** `paginatedProducts` over the current state: never empty in a valid state, unless the list is. */
    function Visible(): (r: seq<T>)
      reads this
      ensures Valid() && products != [] ==> r != []
    {
      assert Valid() && products != [] ==> Paginated(products, page, itemsPerPage) != [] by {
        if Valid() && products != [] {
          NoEmptyPage(products, page, itemsPerPage);
        }
      }
      Paginated(products, page, itemsPerPage)
    }

    /** `handleChangePage`: the control hands over a page between 1 and the count. */
    method ChangePage(value: int)
      requires Valid() && ShowsPagination(itemsPerPage, |products|)
      requires 1 <= value <= PageCount(|products|, itemsPerPage)
      modifies this`page
      ensures Valid()
      ensures page == value && itemsPerPage == old(itemsPerPage) && products == old(products)
      ensures Visible() != []
    {
      page := value;
      NoEmptyPage(products, page, itemsPerPage);
    }

    /** `handleChangeItemsPerPage`: take the chosen size and go back to page 1. */
    method ChangeItemsPerPage(value: int)
      requires Valid() && IsItemsPerPageOption(value, |products|)
      modifies this`page, this`itemsPerPage
      ensures Valid()
      ensures itemsPerPage == value && page == 1 && products == old(products)
      ensures Visible() == products[..Min(value, |products|)]
    {
      itemsPerPage := value;
      page := 1;
      FirstPage(products, value);
    }
  }
}
