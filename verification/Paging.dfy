/**
  Lists served in pages: the filter that admits a request, the page and next link that answer
  it, and two ways of reading a whole list, by counting offsets and by following links.
*/
module Paging {
  import opened Wrappers

  datatype Result<T> = Ok(value: T) | Err

  /******* Serving *******/

  const MaxInt := 0x7fff_ffff_ffff_ffff

  /** Addition of two Go ints. */
  function Add64(x: int, y: int): int {
    var s := x + y;
    if s > MaxInt then s - 0x1_0000_0000_0000_0000 else s
  }

  const DefaultLimit := 50

  datatype Filter = Filter(limit: int, offset: int)

  predicate Admissible(f: Filter) { 0 <= f.limit <= MaxInt && 0 <= f.offset <= MaxInt }

  /** Parsed query parameters, absent ones defaulted; negative ones are refused. */
  function CommonListFilters(limit: Option<int>, offset: Option<int>): Result<Filter> {
    var l := if limit.Some? then limit.value else DefaultLimit;
    var o := if offset.Some? then offset.value else 0;
    if l < 0 then Err else if o < 0 then Err else Ok(Filter(l, o))
  }

  /** The rows a query selects. A zero limit is left out of the query, so it limits nothing. */
  function Serve<T>(list: seq<T>, offset: nat, limit: nat): seq<T> {
    var rest := if offset <= |list| then list[offset..] else [];
    if limit > 0 && |rest| > limit then rest[..limit] else rest
  }

  /** The offset in the next link, if the page has one. */
  function NextOffset(total: nat, f: Filter): Option<int> {
    if Add64(f.offset, f.limit) < total then Some(Add64(f.offset, f.limit)) else None
  }

  /** The next link as it should be: the first row after the page, if there is one. */
  function RowAfter(total: nat, f: Filter): Option<int> {
    if f.offset + f.limit < total then Some(f.offset + f.limit) else None
  }

  /**
    The link is right exactly when offset plus limit does not overflow; when it does, there is
    a link, and the filter refuses it.
  */
  lemma NextOffsetExact(total: nat, f: Filter)
    requires Admissible(f) && total <= MaxInt
    ensures NextOffset(total, f) == RowAfter(total, f) <==> f.offset + f.limit <= MaxInt
    ensures f.offset + f.limit > MaxInt ==>
      NextOffset(total, f).Some? && CommonListFilters(Some(f.limit), NextOffset(total, f)).Err?
  {
  }

  /** Absent parameters are 50 and 0; exactly the negative ones are refused. */
  lemma FilterExact(limit: Option<int>, offset: Option<int>)
    ensures
      var l, o := (if limit.Some? then limit.value else 50), (if offset.Some? then offset.value else 0);
      CommonListFilters(limit, offset) == if l >= 0 && o >= 0 then Ok(Filter(l, o)) else Err
  {
  }

  /** A page holds the rows from its offset on, up to its limit; a zero limit is no limit. */
  lemma ServedRows<T>(list: seq<T>, offset: nat, limit: nat, i: nat)
    ensures
      var page := Serve(list, offset, limit);
      && (i < |page| <==> offset + i < |list| && (limit == 0 || i < limit))
      && (i < |page| ==> page[i] == list[offset + i])
  {
  }

  /******* Following links *******/

  /** Each offset after the first is the next link of the page before it. */
  ghost predicate Chain(total: nat, limit: nat, offsets: seq<nat>) {
    && |offsets| > 0 && offsets[0] == 0
    && forall i | 0 < i < |offsets| :: NextOffset(total, Filter(limit, offsets[i - 1])) == Some(offsets[i])
  }

  /** The chain ends at a page with no next link. */
  ghost predicate Complete(total: nat, limit: nat, offsets: seq<nat>) {
    Chain(total, limit, offsets) && NextOffset(total, Filter(limit, offsets[|offsets| - 1])).None?
  }

  function Visited<T>(list: seq<T>, limit: nat, offsets: seq<nat>): seq<T> {
    if offsets == [] then []
    else Visited(list, limit, offsets[..|offsets| - 1]) + Serve(list, offsets[|offsets| - 1], limit)
  }

  /** The offsets of a chain are the multiples of the limit, none of them beyond the list. */
  lemma {:induction false} ChainOffsets(total: nat, limit: nat, offsets: seq<nat>)
    requires limit <= MaxInt && total <= MaxInt && Chain(total, limit, offsets)
    ensures offsets[|offsets| - 1] == (|offsets| - 1) * limit
    ensures offsets[|offsets| - 1] == 0 || offsets[|offsets| - 1] < total
  {
    var n := |offsets| - 1;
    if n > 0 {
      ChainOffsets(total, limit, offsets[..n]);
      assert NextOffset(total, Filter(limit, offsets[n - 1])) == Some(offsets[n]);
      assert n * limit == (n - 1) * limit + limit;
    }
  }

  lemma NextPage(total: nat, limit: nat, offsets: seq<nat>, n: nat)
    requires 0 < limit <= MaxInt && total <= MaxInt && Chain(total, limit, offsets) && 0 < n < |offsets| && offsets[n - 1] <= MaxInt
    ensures offsets[n] == offsets[n - 1] + limit < total
  {
    assert NextOffset(total, Filter(limit, offsets[n - 1])) == Some(offsets[n]);
  }

  lemma PageExtends<T>(list: seq<T>, limit: nat, offset: nat)
    requires limit > 0 && offset + limit < |list|
    ensures list[..offset] + Serve(list, offset, limit) == list[..offset + limit]
  {
    assert list[offset..][..limit] == list[offset..offset + limit];
  }

  lemma LastPage<T>(list: seq<T>, limit: nat, offset: nat)
    requires limit > 0 && offset <= |list| <= offset + limit
    ensures list[..offset] + Serve(list, offset, limit) == list
  {
  }

  /** With a positive limit, the pages of a chain are the list so far, each row once. */
  lemma {:induction false} ChainVisits<T>(list: seq<T>, limit: nat, offsets: seq<nat>)
    requires 0 < limit <= MaxInt && |list| <= MaxInt && Chain(|list|, limit, offsets)
    ensures var last := offsets[|offsets| - 1];
      && last <= |list| && Visited(list, limit, offsets) == list[..last] + Serve(list, last, limit)
  {
    var n := |offsets| - 1;
    ChainOffsets(|list|, limit, offsets);
    if n > 0 {
      ChainOffsets(|list|, limit, offsets[..n]);
      ChainVisits(list, limit, offsets[..n]);
      NextPage(|list|, limit, offsets, n);
      PageExtends(list, limit, offsets[n - 1]);
    } else {
      assert offsets[..0] == [];
    }
  }

  /** A complete chain visits every item once, in order. */
  lemma CompleteVisitsAll<T>(list: seq<T>, limit: nat, offsets: seq<nat>)
    requires limit <= MaxInt && |list| <= MaxInt && Complete(|list|, limit, offsets)
    ensures Visited(list, limit, offsets) == list
  {
    if limit > 0 {
      ChainVisits(list, limit, offsets);
      LastPage(list, limit, offsets[|offsets| - 1]);
    } else {
      StuckAtZero(|list|, offsets);
      assert offsets == [0];
      assert Visited(list, limit, offsets[..0]) == [];
    }
  }

  /** With limit zero every link leads back to the page it is on. */
  lemma {:induction false} StuckAtZero(total: nat, offsets: seq<nat>)
    requires Chain(total, 0, offsets)
    ensures forall i | 0 <= i < |offsets| :: offsets[i] == 0
    ensures |offsets| > 1 ==> total > 0
  {
    if |offsets| > 1 {
      var n := |offsets| - 1;
      StuckAtZero(total, offsets[..n]);
      assert NextOffset(total, Filter(0, offsets[n - 1])) == Some(offsets[n]);
    }
  }

  /** The end of the last page, were it full. */
  function RoundUp(total: nat, limit: nat): nat
    requires limit > 0
  {
    (total + limit - 1) / limit * limit
  }

  lemma {:induction false} MultipleGrows(a: nat, b: nat, limit: nat)
    requires a <= b
    ensures a * limit <= b * limit
    decreases b - a
  {
    if a < b {
      MultipleGrows(a + 1, b, limit);
      assert (a + 1) * limit == a * limit + limit;
    }
  }

  lemma MultipleOrder(a: nat, b: nat, limit: nat)
    requires limit > 0
    ensures a * limit < b * limit <==> a < b
  {
    if a < b {
      MultipleGrows(a + 1, b, limit);
      assert (a + 1) * limit == a * limit + limit;
    } else {
      MultipleGrows(b, a, limit);
    }
  }

  /** RoundUp is the least multiple of the limit that covers the list. */
  lemma RoundUpLeast(total: nat, limit: nat, n: nat)
    requires limit > 0 && total > 0
    ensures n * limit < total ==> (n + 1) * limit <= RoundUp(total, limit)
    ensures total <= n * limit ==> RoundUp(total, limit) <= n * limit
  {
    var x := total + limit - 1;
    var m := x / limit;
    assert x == m * limit + x % limit;
    assert (n + 1) * limit == n * limit + limit;
    assert (m + 1) * limit == m * limit + limit;
    MultipleOrder(n, m, limit);
    MultipleOrder(m, n + 1, limit);
    MultipleOrder(m, n, limit);
  }

  /** A chain that has not ended goes on, as long as its last page does not overflow. */
  lemma {:induction false} SomeCompleteChain(total: nat, limit: nat, offsets: seq<nat>)
    requires 0 < limit <= MaxInt && 0 < total <= MaxInt && RoundUp(total, limit) <= MaxInt && Chain(total, limit, offsets)
    ensures exists offsets :: Complete(total, limit, offsets)
    decreases total - offsets[|offsets| - 1]
  {
    var n := |offsets| - 1;
    ChainOffsets(total, limit, offsets);
    RoundUpLeast(total, limit, n);
    assert (n + 1) * limit == offsets[n] + limit;
    if offsets[n] + limit < total {
      var longer := offsets + [offsets[n] + limit];
      assert forall i | 0 < i < |longer| :: NextOffset(total, Filter(limit, longer[i - 1])) == Some(longer[i]);
      SomeCompleteChain(total, limit, longer);
    } else {
      assert Complete(total, limit, offsets);
    }
  }

  /**
    Following links comes to an end exactly when the list is empty, or the limit is positive and
    the end of the last page, were it full, is still a Go int.
  */
  lemma LinksEndExactly(total: nat, limit: nat)
    requires total <= MaxInt && limit <= MaxInt
    ensures (exists offsets :: Complete(total, limit, offsets)) <==> total == 0 || (limit > 0 && RoundUp(total, limit) <= MaxInt)
  {
    assert Chain(total, limit, [0]);
    if total == 0 {
      assert Complete(total, limit, [0]);
    } else if limit > 0 && RoundUp(total, limit) <= MaxInt {
      SomeCompleteChain(total, limit, [0]);
    }
    forall offsets | Complete(total, limit, offsets)
      ensures total == 0 || (limit > 0 && RoundUp(total, limit) <= MaxInt)
    {
      EndFits(total, limit, offsets);
    }
  }

  lemma EndFits(total: nat, limit: nat, offsets: seq<nat>)
    requires total <= MaxInt && limit <= MaxInt && Complete(total, limit, offsets)
    ensures total == 0 || (limit > 0 && RoundUp(total, limit) <= MaxInt)
  {
    var n := |offsets| - 1;
    ChainOffsets(total, limit, offsets);
    if limit == 0 {
      StuckAtZero(total, offsets);
    } else if total > 0 {
      assert (n + 1) * limit == offsets[n] + limit;
      RoundUpLeast(total, limit, n + 1);
    }
  }

  /******* Counting offsets *******/

  const DefaultListPageLimit := 200

  datatype Page<T> = Page(items: seq<T>, totalCount: nat)

  /** One read: it fails where `fault` says so, by a closed context or by the source. */
  method Read<T>(list: seq<T>, fault: nat -> bool, offset: nat, limit: nat) returns (page: Result<Page<T>>)
    ensures page == if fault(offset) then Err else Ok(Page(Serve(list, offset, limit), |list|))
  {
    page := if fault(offset) then Err else Ok(Page(Serve(list, offset, limit), |list|));
  }

  /** The offsets that must be read to have the whole list: the first, and every later one inside it. */
  predicate Needed(total: nat, pageSize: nat, offset: nat)
    requires pageSize > 0
  {
    offset == 0 || (offset % pageSize == 0 && offset < total)
  }

  /**
    For a list that does not change, reading succeeds exactly when no needed page fails and the
    context is still open at the end, and then gives the list.
  */
  method ReadAllPages<T>(list: seq<T>, fault: nat -> bool, closedAtEnd: bool) returns (r: Result<seq<T>>)
    ensures r.Ok? ==> r.value == list
    ensures r.Ok? <==> !closedAtEnd && forall offset: nat | Needed(|list|, 200, offset) :: !fault(offset)
  {
    var all: seq<T> := [];
    var offset := 0;
    while true
      invariant 0 <= offset <= |list| && offset % DefaultListPageLimit == 0 && all == list[..offset]
      invariant offset == 0 || offset < |list|
      invariant forall o: nat | o < offset && Needed(|list|, DefaultListPageLimit, o) :: !fault(o)
      decreases |list| - offset
    {
      var page := Read(list, fault, offset, DefaultListPageLimit);
      if page.Err? {
        assert Needed(|list|, DefaultListPageLimit, offset);
        return Err;
      }
      all := all + page.value.items;
      if |all| >= page.value.totalCount || |page.value.items| < DefaultListPageLimit {
        break;
      }
      offset := offset + DefaultListPageLimit;
    }
    r := if closedAtEnd then Err else Ok(all);
  }
}
