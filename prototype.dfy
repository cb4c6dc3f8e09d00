/** The early in-memory version of the API (server.js): the thoughts are a fixed
    array loaded from a data file, and the two GET endpoints filter and slice it
    without touching any store. */
module Prototype {
  import opened Common
  import opened Paging

  /** One element of the data file. */
  datatype Record = Record(id: string, message: string, hearts: int, tags: seq<string>, createdAt: string)

  /** Some tag of r equals `tag` once both are lower-cased. */
  predicate HasTag(r: Record, tag: string) {
    exists w :: w in r.tags && Lower(w) == Lower(tag)
  }

  /** `Array.prototype.filter`: each element is kept as often as it occurs, when `keep` holds of it. */
  function Filter(s: seq<Record>, keep: Record -> bool): (r: seq<Record>)
    ensures forall x :: multiset(r)[x] == if keep(x) then multiset(s)[x] else 0
  {
    if s == [] then []
    else
      assert s == [s[0]] + s[1..];
      (if keep(s[0]) then [s[0]] else []) + Filter(s[1..], keep)
  }

  /** a is obtained from b by deleting elements, keeping the order of the rest. */
  ghost predicate IsSubsequence(a: seq<Record>, b: seq<Record>)
    decreases |b|
  {
    if a == [] then true
    else if b == [] then false
    else (a[0] == b[0] && IsSubsequence(a[1..], b[1..])) || IsSubsequence(a, b[1..])
  }

  lemma {:induction false} SubsequenceOfTail(a: seq<Record>, b: seq<Record>)
    requires b != [] && IsSubsequence(a, b[1..])
    ensures IsSubsequence(a, b)
  {
  }

  /** Filtering keeps the survivors in their original order. */
  lemma {:induction false} FilterIsSubsequence(s: seq<Record>, keep: Record -> bool)
    ensures IsSubsequence(Filter(s, keep), s)
  {
    if s != [] {
      FilterIsSubsequence(s[1..], keep);
      var rest := Filter(s[1..], keep);
      if keep(s[0]) {
        assert Filter(s, keep) == [s[0]] + rest;
        assert ([s[0]] + rest)[1..] == rest;
      } else {
        assert Filter(s, keep) == rest;
        SubsequenceOfTail(rest, s);
      }
    }
  }

  /** The `tag` filter of GET /thoughts: absent or empty keeps everything,
      otherwise the records tagged with it, ignoring case. */
  function FilterByTag(data: seq<Record>, tag: Option<string>): (r: seq<Record>)
    ensures !Present(tag) ==> r == data
    ensures Present(tag) ==> forall x :: multiset(r)[x] == if HasTag(x, tag.value) then multiset(data)[x] else 0
  {
    if Present(tag) then Filter(data, (x: Record) => HasTag(x, tag.value)) else data
  }

  /** Whatever the tag, the filtered list keeps the order of the data file. */
  lemma FilterByTagIsSubsequence(data: seq<Record>, tag: Option<string>)
    ensures IsSubsequence(FilterByTag(data, tag), data)
  {
    if Present(tag) {
      FilterIsSubsequence(data, (x: Record) => HasTag(x, tag.value));
    } else {
      FilterIsSubsequence(data, (x: Record) => true);
      assert Filter(data, (x: Record) => true) == data by {
        FilterKeepingAll(data, (x: Record) => true);
      }
    }
  }

  lemma {:induction false} FilterKeepingAll(s: seq<Record>, keep: Record -> bool)
    requires forall x :: keep(x)
    ensures Filter(s, keep) == s
  {
    if s != [] {
      FilterKeepingAll(s[1..], keep);
    }
  }

  /** GET /thoughts: filter by tag, then `slice((page-1)*limit, page*limit)`;
      `sort` is read and ignored, and an empty page is an ordinary 200 answer. */
  function GetThoughts(data: seq<Record>, tag: Option<string>, sort: Option<string>,
                       page: Option<Pos>, limit: Option<Pos>): (r: Response<seq<Record>>)
    ensures r.status == OK && r.payload.Some?
    ensures var pg := if page.Some? then page.value else DefaultPage;
            var lim := if limit.Some? then limit.value else DefaultLimit;
            var matches := FilterByTag(data, tag);
            && |r.payload.value| <= lim
            && |r.payload.value| == (if Skip(pg, lim) >= |matches| then 0 else Min(lim, |matches| - Skip(pg, lim)))
            && forall i :: 0 <= i < |r.payload.value| ==> r.payload.value[i] == matches[Skip(pg, lim) + i]
  {
    var pg := if page.Some? then page.value else DefaultPage;
    var lim := if limit.Some? then limit.value else DefaultLimit;
    Response(OK, Some(Window(FilterByTag(data, tag), pg, lim)))
  }

  /** The `sort` query parameter has no effect on the answer. */
  lemma SortIgnored(data: seq<Record>, tag: Option<string>, s1: Option<string>, s2: Option<string>,
                    page: Option<Pos>, limit: Option<Pos>)
    ensures GetThoughts(data, tag, s1, page, limit) == GetThoughts(data, tag, s2, page, limit)
  {
  }

  /** GET /thoughts/:id: every record with that `_id` (as an array), or 404 when there is none. */
  function GetThought(data: seq<Record>, id: string): (r: Response<seq<Record>>)
    ensures r.status == OK || r.status == NotFound
    ensures r.status == NotFound <==> (forall x :: x in data ==> x.id != id)
    ensures r.status == NotFound ==> r.payload == None
    ensures r.status == OK ==> r.payload.Some?
    ensures r.status == OK ==>
              forall x :: multiset(r.payload.value)[x] == if x.id == id then multiset(data)[x] else 0
  {
    var found := Filter(data, (x: Record) => x.id == id);
    if |found| == 0 then
      assert forall x :: x in data ==> x.id != id by {
        forall x | x in data ensures x.id != id {
          assert multiset(found)[x] == 0;
        }
      }
      Response(NotFound, None)
    else
      assert found[0] in multiset(found);
      Response(OK, Some(found))
  }
}
