/**
Reading a stable remote list page by page: both clients ask for pages of a fixed
size, stop at the first short page and give up after a fixed number of pages.
*/
module Paging {

  /** The page that starts at `offset`. */
  function Page<T>(xs: seq<T>, size: nat, offset: nat): seq<T> {
    if offset >= |xs| then []
    else if offset + size >= |xs| then xs[offset..]
    else xs[offset..offset + size]
  }

  /** `n` full pages have been read and the next one is appended. */
  lemma PageExtends<T>(xs: seq<T>, size: nat, n: nat)
    requires size > 0 && n * size <= |xs|
    ensures xs[..n * size] + Page(xs, size, n * size) ==
            if |Page(xs, size, n * size)| == size then xs[..(n + 1) * size] else xs
    ensures |Page(xs, size, n * size)| == size ==> (n + 1) * size <= |xs|
    ensures |Page(xs, size, n * size)| < size ==> |xs| < (n + 1) * size
    ensures |Page(xs, size, n * size)| <= size
  {
  }
}
