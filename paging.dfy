/** Offset pagination: page `page` of size `limit` starts at `(page - 1) * limit`.
    Both the Mongo query (`skip((page-1)*limit).limit(limit)`) and the array
    prototype (`slice((page-1)*limit, page*limit)`) take this window. */
module Paging {
  import opened Common

  /** `page` and `limit` are positive whole numbers. */
  type Pos = n: int | n >= 1 witness 1

  const DefaultPage: Pos := 1
  const DefaultLimit: Pos := 10

  function Skip(page: Pos, limit: Pos): nat {
    (page - 1) * limit
  }

  function Min(a: int, b: int): int {
    if a <= b then a else b
  }

  /** The elements of `s` that page `page` shows, clamped to `s` as `slice` and `skip` clamp. */
  function Window<T>(s: seq<T>, page: Pos, limit: Pos): (w: seq<T>)
    ensures |w| <= limit
    ensures |w| == if Skip(page, limit) >= |s| then 0 else Min(limit, |s| - Skip(page, limit))
    ensures forall i :: 0 <= i < |w| ==> w[i] == s[Skip(page, limit) + i]
  {
    var lo := Min(Skip(page, limit), |s|);
    var hi := Min(page * limit, |s|);
    s[lo..hi]
  }

  /** A page is empty exactly when it starts at or past the end. */
  lemma EmptyWindow<T>(s: seq<T>, page: Pos, limit: Pos)
    ensures Window(s, page, limit) == [] <==> Skip(page, limit) >= |s|
  {
    if Skip(page, limit) < |s| {
      assert |Window(s, page, limit)| >= 1;
    }
  }

  /** Pages 1..n, one after the other. */
  function Pages<T>(s: seq<T>, limit: Pos, n: nat): seq<T>
  {
    if n == 0 then [] else Pages(s, limit, n - 1) + Window(s, n, limit)
  }

  /** The first n pages are exactly the first n * limit elements: nothing is
      skipped or repeated between consecutive pages. */
  lemma {:induction false} PagesArePrefix<T>(s: seq<T>, limit: Pos, n: nat)
    ensures Pages(s, limit, n) == s[..Min(n * limit, |s|)]
  {
    if n > 0 {
      PagesArePrefix(s, limit, n - 1);
      var lo := Min((n - 1) * limit, |s|);
      var hi := Min(n * limit, |s|);
      assert Skip(n, limit) == (n - 1) * limit;
      assert Window(s, n, limit) == s[lo..hi];
      assert s[..lo] + s[lo..hi] == s[..hi];
    }
  }

  /** Enough pages together give back the whole sequence. */
  lemma PagesCover<T>(s: seq<T>, limit: Pos, n: nat)
    requires n * limit >= |s|
    ensures Pages(s, limit, n) == s
  {
    PagesArePrefix(s, limit, n);
  }

  /** Element i of s is shown on page i / limit + 1, at position i % limit. */
  lemma PageOfIndex<T>(s: seq<T>, limit: Pos, i: nat)
    requires i < |s|
    ensures var w := Window(s, i / limit + 1, limit);
            i % limit < |w| && w[i % limit] == s[i]
  {
    assert Skip(i / limit + 1, limit) == (i / limit) * limit;
    assert (i / limit) * limit + i % limit == i;
  }

  lemma ScaledGap(p: Pos, q: Pos, limit: Pos)
    requires p < q
    ensures Skip(q, limit) >= Skip(p, limit) + limit
  {
    calc {
      Skip(q, limit);
    ==
      (q - 1) * limit;
    >= { assert q - 1 >= p; }
      p * limit;
    ==
      (p - 1) * limit + limit;
    }
  }

  /** When s repeats no element, two different pages share no element. */
  lemma {:induction false} WindowsDisjoint<T>(s: seq<T>, p: Pos, q: Pos, limit: Pos)
    requires Distinct(s) && p != q
    ensures forall x :: x in Window(s, p, limit) ==> x !in Window(s, q, limit)
  {
    var wp, wq := Window(s, p, limit), Window(s, q, limit);
    forall i, j | 0 <= i < |wp| && 0 <= j < |wq|
      ensures wp[i] != wq[j]
    {
      if p < q {
        ScaledGap(p, q, limit);
      } else {
        ScaledGap(q, p, limit);
      }
      assert Skip(p, limit) + i != Skip(q, limit) + j;
    }
  }
}
