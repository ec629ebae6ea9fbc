/**
  The paging loop's specification: the responses a run receives, the node
  list it accumulates from them, and the cursor they leave behind.
 */
module Paging {
  import opened HarvestTypes
  import opened CursorStore

  /** The responses to a run's `n` page requests. Every request carries the
      same offset and limit; only the request number varies. */
  function Responses(page: (nat, int, int) -> PageResponse, offset: int, limit: int, n: nat): (rs: seq<PageResponse>)
    ensures |rs| == n
    ensures forall k :: 0 <= k < n ==> rs[k] == page(k + 1, offset, limit)
  {
    if n == 0 then [] else Responses(page, offset, limit, n - 1) + [page(n, offset, limit)]
  }

  /** `data` of the status-200 responses, in request order. */
  function Accumulate(rs: seq<PageResponse>): seq<Node>
  {
    if |rs| == 0 then []
    else
      var last := rs[|rs| - 1];
      Accumulate(rs[..|rs| - 1]) + (if last.status == 200 then last.data else [])
  }

  /** The store after the loop: the cursor rule applied to the links of each
      status-200 response in turn. */
  function CursorAfterPages(c: Option<int>, writable: bool, rs: seq<PageResponse>): Option<int>
  {
    if |rs| == 0 then c
    else
      var before := CursorAfterPages(c, writable, rs[..|rs| - 1]);
      var last := rs[|rs| - 1];
      if last.status == 200 then CursorAfter(before, writable, last.links) else before
  }

  /** One request more: the nodes and the store after the (n+1)-th response. */
  lemma ResponsesSnoc(page: (nat, int, int) -> PageResponse, offset: int, limit: int, n: nat, c: Option<int>, writable: bool)
    ensures var rs, r := Responses(page, offset, limit, n), page(n + 1, offset, limit);
      Accumulate(Responses(page, offset, limit, n + 1)) == Accumulate(rs) + (if r.status == 200 then r.data else []) &&
      CursorAfterPages(c, writable, Responses(page, offset, limit, n + 1))
        == if r.status == 200 then CursorAfter(CursorAfterPages(c, writable, rs), writable, r.links)
           else CursorAfterPages(c, writable, rs)
  {
    SnocPrefix(Responses(page, offset, limit, n), page(n + 1, offset, limit));
  }

  /** The accumulated list of consecutive batches is the concatenation of
      their lists: order is request order. */
  lemma {:induction false} AccumulateAppend(a: seq<PageResponse>, b: seq<PageResponse>)
    ensures Accumulate(a + b) == Accumulate(a) + Accumulate(b)
    decreases |b|
  {
    if |b| == 0 {
      ConcatEmpty(a);
    } else {
      var b' := b[..|b| - 1];
      ConcatFront(a, b);
      AccumulateAppend(a, b');
    }
  }

  /** A node is accumulated exactly when some status-200 response carries it. */
  lemma {:induction false} AccumulateMembers(rs: seq<PageResponse>, x: Node)
    ensures x in Accumulate(rs) <==> exists i :: 0 <= i < |rs| && rs[i].status == 200 && x in rs[i].data
  {
    if |rs| > 0 {
      var front := rs[..|rs| - 1];
      AccumulateMembers(front, x);
      assert forall i :: 0 <= i < |front| ==> front[i] == rs[i];
    }
  }

  /** Nothing is accumulated exactly when every status-200 response is empty. */
  lemma {:induction false} AccumulateEmptyIff(rs: seq<PageResponse>)
    ensures Accumulate(rs) == [] <==> forall i :: 0 <= i < |rs| && rs[i].status == 200 ==> rs[i].data == []
  {
    if |rs| > 0 {
      var front := rs[..|rs| - 1];
      AccumulateEmptyIff(front);
      assert forall i :: 0 <= i < |front| ==> front[i] == rs[i];
    }
  }

  /** Non-200 responses never move the cursor: with no success at all the
      store is as the loop found it. */
  lemma {:induction false} NoSuccessKeepsCursor(c: Option<int>, writable: bool, rs: seq<PageResponse>)
    requires forall i :: 0 <= i < |rs| ==> rs[i].status != 200
    ensures CursorAfterPages(c, writable, rs) == c
  {
    if |rs| > 0 {
      NoSuccessKeepsCursor(c, writable, rs[..|rs| - 1]);
    }
  }

  /** The last status-200 response decides the store: the rule applied to its
      links, over whatever the earlier responses left. */
  lemma {:induction false} LastSuccessDecides(c: Option<int>, writable: bool, rs: seq<PageResponse>, k: nat)
    requires k < |rs| && rs[k].status == 200
    requires forall j :: k < j < |rs| ==> rs[j].status != 200
    ensures CursorAfterPages(c, writable, rs) == CursorAfter(CursorAfterPages(c, writable, rs[..k]), writable, rs[k].links)
  {
    if k < |rs| - 1 {
      var front := rs[..|rs| - 1];
      TakeTake(rs, |rs| - 1, k);
      LastSuccessDecides(c, writable, front, k);
    } else {
      assert rs[..|rs| - 1] == rs[..k];
    }
  }

  /** Because every request of a run carries the same offset, a collection
      that does not change during the run answers every request with the same
      page: the run accumulates that page `n` times and the store ends as one
      application of the rule to its links would leave it. */
  lemma UnchangedCollectionRepeatsPage(
    page: (nat, int, int) -> PageResponse, offset: int, limit: int, n: nat,
    r: PageResponse, c: Option<int>, writable: bool)
    requires forall p: nat :: page(p, offset, limit) == r
    requires r.status == 200
    ensures Accumulate(Responses(page, offset, limit, n)) == Repeat(r.data, n)
    ensures CursorAfterPages(c, writable, Responses(page, offset, limit, n))
         == if n == 0 then c else CursorAfter(c, writable, r.links)
  {
    UnchangedCollectionAccumulates(page, offset, limit, n, r);
    UnchangedCollectionCursor(page, offset, limit, n, r, c, writable);
  }

  lemma UnchangedCollectionAccumulates(
    page: (nat, int, int) -> PageResponse, offset: int, limit: int, n: nat, r: PageResponse)
    requires forall p: nat :: page(p, offset, limit) == r
    requires r.status == 200
    ensures Accumulate(Responses(page, offset, limit, n)) == Repeat(r.data, n)
  {
    var rs := Responses(page, offset, limit, n);
    assert forall i :: 0 <= i < |rs| ==> rs[i] == page(i + 1, offset, limit);
    SameResponseAccumulates(rs, r);
  }

  lemma UnchangedCollectionCursor(
    page: (nat, int, int) -> PageResponse, offset: int, limit: int, n: nat,
    r: PageResponse, c: Option<int>, writable: bool)
    requires forall p: nat :: page(p, offset, limit) == r
    requires r.status == 200
    ensures CursorAfterPages(c, writable, Responses(page, offset, limit, n))
         == if n == 0 then c else CursorAfter(c, writable, r.links)
  {
    var rs := Responses(page, offset, limit, n);
    assert forall i :: 0 <= i < |rs| ==> rs[i] == page(i + 1, offset, limit);
    SameResponseCursor(rs, r, c, writable);
  }

  /** Responses that are all the same successful page accumulate it once per response. */
  lemma {:induction false} SameResponseAccumulates(rs: seq<PageResponse>, r: PageResponse)
    requires forall i :: 0 <= i < |rs| ==> rs[i] == r
    requires r.status == 200
    ensures Accumulate(rs) == Repeat(r.data, |rs|)
  {
    if |rs| > 0 {
      SameResponseAccumulates(rs[..|rs| - 1], r);
    }
  }

  /** Responses that are all the same successful page leave the store as one
      application of the rule to its links. */
  lemma {:induction false} SameResponseCursor(rs: seq<PageResponse>, r: PageResponse, c: Option<int>, writable: bool)
    requires forall i :: 0 <= i < |rs| ==> rs[i] == r
    requires r.status == 200
    ensures CursorAfterPages(c, writable, rs) == if |rs| == 0 then c else CursorAfter(c, writable, r.links)
  {
    if |rs| > 0 {
      SameResponseCursor(rs[..|rs| - 1], r, c, writable);
      if |rs| > 1 {
        CursorAfterIdempotent(c, writable, r.links);
      }
    }
  }
}
