/** The list handlers of routes/thoughtRoutes.js as queries over the thought
    table: the filter a handler builds, the count of matches, the sort and the
    page. The table is a map from `_id` to document; `scan` is the order in
    which the store visits the documents, which the code does not control, so
    every statement below holds whatever that order is. */
module ThoughtQueries {
  import opened Common
  import opened Paging
  import opened ThoughtModel

  /** The sort orders the handlers ask for: "-createdAt" and "-hearts". */
  datatype SortKey = CreatedAtDesc | HeartsDesc

  const DefaultSort := CreatedAtDesc

  function KeyOf(d: Doc, key: SortKey): int {
    match key
    case CreatedAtDesc => d.thought.createdAt
    case HeartsDesc => d.thought.hearts
  }

  /** The `query` object: `tags: tag` and `hearts: { $gte: likes }`, each optional. */
  datatype Query = Query(tag: Option<string>, minHearts: Option<int>)

  predicate Matches(q: Query, t: Thought) {
    && (q.tag.Some? ==> q.tag.value in t.tags)
    && (q.minHearts.Some? ==> t.hearts >= q.minHearts.value)
  }

  /** The handlers' `if (tag)` and `if (likes)`: a falsy parameter adds no condition. */
  function BuildQuery(tag: Option<string>, likes: Option<int>): (q: Query)
    ensures forall t :: Matches(q, t) <==>
              (Present(tag) ==> tag.value in t.tags) && (likes.Some? ==> t.hearts >= likes.value)
  {
    Query(if Present(tag) then Some(tag.value) else None, likes)
  }

  /** What `countDocuments` counts. */
  function Matching(m: map<Id, Thought>, q: Query): set<Id> {
    set id | id in m && Matches(q, m[id])
  }

  /** `scan` visits every document of m exactly once. */
  ghost predicate Enumerates(scan: seq<Id>, m: map<Id, Thought>) {
    Distinct(scan) && forall id :: id in scan <==> id in m
  }

  /** `find(query)` before sorting: the matching documents in scan order. */
  function Find(scan: seq<Id>, m: map<Id, Thought>, q: Query): (r: seq<Doc>)
    requires forall id :: id in scan ==> id in m
    ensures forall d :: d in r <==> d.id in scan && d.id in m && d.thought == m[d.id] && Matches(q, d.thought)
    ensures Distinct(scan) ==> Distinct(r)
  {
    if scan == [] then []
    else
      var rest := Find(scan[1..], m, q);
      assert Distinct(scan) ==> scan[0] !in scan[1..];
      if Matches(q, m[scan[0]]) then [Doc(scan[0], m[scan[0]])] + rest else rest
  }

  /** As many documents are found as there are matching ids in the scan. */
  lemma {:induction false} FindCount(scan: seq<Id>, m: map<Id, Thought>, q: Query)
    requires forall id :: id in scan ==> id in m
    requires Distinct(scan)
    ensures |Find(scan, m, q)| == |set id | id in scan && Matches(q, m[id])|
  {
    if scan != [] {
      var rest := scan[1..];
      FindCount(rest, m, q);
      var all := set id | id in scan && Matches(q, m[id]);
      var tail := set id | id in rest && Matches(q, m[id]);
      assert scan[0] !in rest;
      assert scan == [scan[0]] + rest;
      if Matches(q, m[scan[0]]) {
        assert all == tail + {scan[0]};
      } else {
        assert all == tail;
      }
    }
  }

  /** Non-increasing in `key`; documents with equal keys may come in any order. */
  predicate Descending(s: seq<Doc>, key: SortKey) {
    forall i, j :: 0 <= i < j < |s| ==> KeyOf(s[i], key) >= KeyOf(s[j], key)
  }

  /** Put d before the first element with a smaller key. */
  function Insert(d: Doc, s: seq<Doc>, key: SortKey): (r: seq<Doc>)
    requires Descending(s, key)
    ensures multiset(r) == multiset(s) + multiset{d}
    ensures Descending(r, key)
  {
    if s == [] || KeyOf(d, key) >= KeyOf(s[0], key) then [d] + s
    else
      var rest := Insert(d, s[1..], key);
      assert s == [s[0]] + s[1..];
      HeadDominates(s[0], d, s[1..], rest, key);
      [s[0]] + rest
  }

  lemma HeadDominates(h: Doc, d: Doc, tail: seq<Doc>, rest: seq<Doc>, key: SortKey)
    requires Descending([h] + tail, key) && Descending(rest, key)
    requires KeyOf(d, key) < KeyOf(h, key)
    requires multiset(rest) == multiset(tail) + multiset{d}
    ensures Descending([h] + rest, key)
  {
    forall x | x in rest ensures KeyOf(h, key) >= KeyOf(x, key) {
      assert x in multiset(rest);
      if x != d {
        assert x in multiset(tail);
        var j :| 0 <= j < |tail| && tail[j] == x;
        assert ([h] + tail)[0] == h && ([h] + tail)[j + 1] == x;
      }
    }
    var r := [h] + rest;
    forall i, j | 0 <= i < j < |r| ensures KeyOf(r[i], key) >= KeyOf(r[j], key) {
      if i == 0 {
        assert r[j] == rest[j - 1];
        assert rest[j - 1] in rest;
      } else {
        assert r[i] == rest[i - 1] && r[j] == rest[j - 1];
      }
    }
  }

  /** Inserting a new element keeps a sequence free of repetitions. */
  lemma InsertDistinct(d: Doc, s: seq<Doc>, key: SortKey)
    requires Descending(s, key) && Distinct(s) && d !in s
    ensures Distinct(Insert(d, s, key))
  {
    var r := Insert(d, s, key);
    forall i, j | 0 <= i < j < |r| ensures r[i] != r[j] {
      DistinctOnce(s, r[i]);
      assert multiset(r)[r[i]] == multiset(s)[r[i]] + multiset{d}[r[i]];
      assert r[i] == d ==> multiset(s)[r[i]] == 0;
      AtMostOnce(r, i, j);
    }
  }

  /** An element that occurs at most once in s is not repeated at two positions. */
  lemma AtMostOnce<T>(s: seq<T>, i: int, j: int)
    requires 0 <= i < j < |s| && multiset(s)[s[i]] <= 1
    ensures s[i] != s[j]
  {
    assert s == s[..j] + s[j..];
    assert s[i] in s[..j];
    assert s[j] in s[j..];
    assert multiset(s) == multiset(s[..j]) + multiset(s[j..]);
  }

  lemma {:induction false} DistinctOnce<T>(s: seq<T>, x: T)
    requires Distinct(s)
    ensures multiset(s)[x] <= 1
  {
    if s != [] {
      assert s == [s[0]] + s[1..];
      DistinctOnce(s[1..], x);
      if x == s[0] {
        assert x !in s[1..];
      }
    }
  }

  /** The store's `sort`: a non-increasing rearrangement of its input. */
  function SortDesc(s: seq<Doc>, key: SortKey): (r: seq<Doc>)
    ensures multiset(r) == multiset(s)
    ensures Descending(r, key)
    ensures Distinct(s) ==> Distinct(r)
  {
    if s == [] then []
    else
      assert s == [s[0]] + s[1..];
      var rest := SortDesc(s[1..], key);
      assert Distinct(s) ==> Distinct(Insert(s[0], rest, key)) by {
        if Distinct(s) {
          assert s[0] !in multiset(s[1..]);
          InsertDistinct(s[0], rest, key);
        }
      }
      Insert(s[0], rest, key)
  }

  /** `find(query).sort(key)`: every matching document once, in non-increasing key order. */
  function Ranked(m: map<Id, Thought>, scan: seq<Id>, q: Query, key: SortKey): (r: seq<Doc>)
    requires Enumerates(scan, m)
    ensures Descending(r, key) && Distinct(r)
    ensures forall d :: d in r <==> d.id in m && d.thought == m[d.id] && Matches(q, d.thought)
    ensures |r| == |Matching(m, q)|
  {
    var found := Find(scan, m, q);
    FindCount(scan, m, q);
    assert (set id | id in scan && Matches(q, m[id])) == Matching(m, q);
    var r := SortDesc(found, key);
    assert forall d :: d in r <==> d in found by {
      forall d ensures d in r <==> d in found {
        assert d in r <==> d in multiset(r);
      }
    }
    assert |r| == |multiset(r)| == |found|;
    r
  }

  /** The `response` of a successful listing. */
  datatype Listing = Listing(data: seq<Doc>, totalCount: nat, currentPage: Pos, limit: Pos)

  /** The answer of a list handler for query q, order key, page and limit:
      404 with no body when the page is empty (no match at all, or a page past
      the end), otherwise 200 with the page and the total number of matches. */
  function ListResponse(m: map<Id, Thought>, scan: seq<Id>, q: Query, key: SortKey,
                        page: Pos, limit: Pos): (r: Response<Listing>)
    requires Enumerates(scan, m)
    ensures r.status == OK || r.status == NotFound
    ensures r.status == NotFound <==> Skip(page, limit) >= |Matching(m, q)|
    ensures r.status == NotFound ==> r.payload == None
    ensures r.status == OK ==> r.payload.Some?
    ensures r.status == OK ==>
              var l := r.payload.value;
              && l.totalCount == |Matching(m, q)|
              && l.currentPage == page && l.limit == limit
              && 1 <= |l.data| <= limit
              && (forall d :: d in l.data ==> d.id in m && m[d.id] == d.thought && Matches(q, d.thought))
              && Descending(l.data, key)
              && l.data == Window(Ranked(m, scan, q, key), page, limit)
  {
    var totalCount := |Matching(m, q)|;
    var ranked := Ranked(m, scan, q, key);
    var data := Window(ranked, page, limit);
    EmptyWindow(ranked, page, limit);
    if data == [] then Response(NotFound, None)
    else
      assert forall d :: d in data ==> d in ranked;
      assert Descending(data, key) by {
        forall i, j | 0 <= i < j < |data| ensures KeyOf(data[i], key) >= KeyOf(data[j], key) {
          assert data[i] == ranked[Skip(page, limit) + i];
          assert data[j] == ranked[Skip(page, limit) + j];
        }
      }
      Response(OK, Some(Listing(data, totalCount, page, limit)))
  }

  /** No two matching documents have the same sort key. */
  ghost predicate KeysDistinct(m: map<Id, Thought>, q: Query, key: SortKey) {
    forall a, b :: a in Matching(m, q) && b in Matching(m, q) && a != b ==>
      KeyOf(Doc(a, m[a]), key) != KeyOf(Doc(b, m[b]), key)
  }

  /** Two non-increasing sequences without repeats, holding the same elements
      whose keys are pairwise different, are the same sequence. */
  lemma {:induction false} SortedUnique(s1: seq<Doc>, s2: seq<Doc>, key: SortKey)
    requires Descending(s1, key) && Descending(s2, key) && Distinct(s1) && Distinct(s2)
    requires forall d :: d in s1 <==> d in s2
    requires forall x, y :: x in s1 && y in s1 && x != y ==> KeyOf(x, key) != KeyOf(y, key)
    ensures s1 == s2
  {
    if s2 != [] {
      assert s2[0] in s2;
    }
    if s1 != [] {
      var h1, h2 := s1[0], s2[0];
      HeadIsMax(s1, h2, key);
      HeadIsMax(s2, h1, key);
      assert h1 == h2;
      var t1, t2 := s1[1..], s2[1..];
      assert s1 == [h1] + t1 && s2 == [h2] + t2;
      forall d ensures d in t1 <==> d in t2 {
        assert d in t1 <==> d in s1 && d != h1;
        assert d in t2 <==> d in s2 && d != h2;
      }
      SortedUnique(t1, t2, key);
    }
  }

  lemma HeadIsMax(s: seq<Doc>, x: Doc, key: SortKey)
    requires Descending(s, key) && x in s
    ensures KeyOf(s[0], key) >= KeyOf(x, key)
  {
    var i :| 0 <= i < |s| && s[i] == x;
  }

  /** When no two matches share a key, the sorted matches do not depend on the
      order in which the store visits documents. */
  lemma RankedIndependentOfScan(m: map<Id, Thought>, scan1: seq<Id>, scan2: seq<Id>, q: Query, key: SortKey)
    requires Enumerates(scan1, m) && Enumerates(scan2, m)
    requires KeysDistinct(m, q, key)
    ensures Ranked(m, scan1, q, key) == Ranked(m, scan2, q, key)
  {
    var r1, r2 := Ranked(m, scan1, q, key), Ranked(m, scan2, q, key);
    forall x, y | x in r1 && y in r1 && x != y ensures KeyOf(x, key) != KeyOf(y, key) {
      assert x.id in Matching(m, q) && y.id in Matching(m, q);
      assert x == Doc(x.id, m[x.id]) && y == Doc(y.id, m[y.id]);
    }
    SortedUnique(r1, r2, key);
  }

  /** Every matching document is on exactly one page, even when the two pages
      are fetched by separate requests in which the store visits documents in
      different orders, provided no two matches tie on the sort key: page p
      and page p' share no document, and enough pages show every match. */
  lemma PagesPartitionMatches(m: map<Id, Thought>, scan: seq<Id>, scan': seq<Id>, q: Query, key: SortKey,
                              limit: Pos, p: Pos, p': Pos, n: nat)
    requires Enumerates(scan, m) && Enumerates(scan', m)
    requires KeysDistinct(m, q, key)
    requires n * limit >= |Matching(m, q)|
    ensures var ranked, ranked' := Ranked(m, scan, q, key), Ranked(m, scan', q, key);
            && (p != p' ==> forall d :: d in Window(ranked, p, limit) ==> d !in Window(ranked', p', limit))
            && Pages(ranked', limit, n) == ranked
  {
    RankedIndependentOfScan(m, scan, scan', q, key);
    var ranked := Ranked(m, scan, q, key);
    if p != p' {
      WindowsDisjoint(ranked, p, p', limit);
    }
    PagesCover(ranked, limit, n);
  }

  /** With a tie, two requests may see the tied documents in different orders,
      and then page 1 and page 2 show the same document. */
  lemma TiedPagesMayOverlap()
    ensures var t := Thought("hello", 0, ["other"], 0);
            var m := map["a" := t, "b" := t];
            var q := Query(None, None);
            && Enumerates(["a", "b"], m) && Enumerates(["b", "a"], m)
            && Doc("a", t) in Window(Ranked(m, ["a", "b"], q, HeartsDesc), 1, 1)
            && Doc("a", t) in Window(Ranked(m, ["b", "a"], q, HeartsDesc), 2, 1)
  {
    var t := Thought("hello", 0, ["other"], 0);
    var m := map["a" := t, "b" := t];
    var q := Query(None, None);
    var da, db := Doc("a", t), Doc("b", t);
    FindTwo(m, q, "a", "b");
    FindTwo(m, q, "b", "a");
    SortTwo(da, db, HeartsDesc);
    SortTwo(db, da, HeartsDesc);
    var r1, r2 := Ranked(m, ["a", "b"], q, HeartsDesc), Ranked(m, ["b", "a"], q, HeartsDesc);
    assert r1 == [da, db];
    assert r2 == [db, da];
    assert Window(r1, 1, 1)[0] == da;
    assert Window(r2, 2, 1)[0] == da;
  }

  lemma FindTwo(m: map<Id, Thought>, q: Query, x: Id, y: Id)
    requires x in m && y in m && Matches(q, m[x]) && Matches(q, m[y])
    ensures Find([x, y], m, q) == [Doc(x, m[x]), Doc(y, m[y])]
  {
    assert [x, y][1..] == [y];
    assert [y][1..] == [];
    assert Find([], m, q) == [];
    assert Find([y], m, q) == [Doc(y, m[y])] + Find([], m, q);
    assert Find([x, y], m, q) == [Doc(x, m[x])] + Find([y], m, q);
  }

  lemma SortTwo(a: Doc, b: Doc, key: SortKey)
    requires KeyOf(a, key) == KeyOf(b, key)
    ensures SortDesc([a, b], key) == [a, b]
  {
    assert [a, b][1..] == [b];
    assert [b][1..] == [];
    assert SortDesc([b], key) == [b];
  }
}
