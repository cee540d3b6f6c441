/** Spring Data paging as the services use it: `PageRequest.of(page, size)`
    over the repository's iteration order, and the `Page` that `findAll`
    returns. The order itself is the repository's and is a parameter here. */
module Paging {

  /** One page of results and the bookkeeping the client reads from it. */
  datatype Page<T> = Page(content: seq<T>, number: nat, size: nat, totalElements: nat)

  function Min(a: nat, b: nat): nat {
    if a <= b then a else b
  }

  /** The slice of `order` that page `page` of size `size` covers. */
  function PageOf<T>(order: seq<T>, page: nat, size: nat): (r: seq<T>)
    ensures |r| <= size
  {
    order[Min(page * size, |order|)..Min(page * size + size, |order|)]
  }

  /** `Page.getTotalPages()`: the number of pages of size `size` needed
      for `total` elements (one when the size is zero). */
  function TotalPages(total: nat, size: nat): nat {
    if size == 0 then 1 else (total + size - 1) / size
  }

  /** The pages 0 .. count-1 concatenated. */
  function FirstPages<T>(order: seq<T>, count: nat, size: nat): seq<T> {
    if count == 0 then [] else FirstPages(order, count - 1, size) + PageOf(order, count - 1, size)
  }

  /** Reading the pages in turn yields the repository's order without gaps
      or repeats: the first `count` pages are exactly the first
      `count * size` elements. */
  lemma {:induction false} FirstPagesArePrefix<T>(order: seq<T>, count: nat, size: nat)
    ensures FirstPages(order, count, size) == order[..Min(count * size, |order|)]
  {
    if count > 0 {
      FirstPagesArePrefix(order, count - 1, size);
      assert (count - 1) * size + size == count * size;
      var a := Min((count - 1) * size, |order|);
      var b := Min(count * size, |order|);
      assert order[..a] + order[a..b] == order[..b];
    }
  }

  lemma MulMonotone(a: nat, b: nat, c: nat)
    requires a <= b
    ensures a * c <= b * c
  {
    assert b * c == a * c + (b - a) * c;
  }

  lemma DivBounds(x: nat, d: nat)
    requires d > 0
    ensures (x / d) * d <= x < (x / d) * d + d
  {
  }

  /** A page has content exactly when its index is below the page count. */
  lemma PageNonEmptyIff<T>(order: seq<T>, page: nat, size: nat)
    requires size > 0
    ensures PageOf(order, page, size) != [] <==> page < TotalPages(|order|, size)
  {
    var n := |order|;
    var t := TotalPages(n, size);
    DivBounds(n + size - 1, size);
    if page < t {
      MulMonotone(page + 1, t, size);
      assert (page + 1) * size == page * size + size;
    } else {
      MulMonotone(t, page, size);
    }
  }
}
