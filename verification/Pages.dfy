/** The page table: building, growing and mapping it, and growing the heap. */
module Pages {
  import opened Words
  import opened Machine

  const PAGE := 4096

  // ----- the computations -----

  /** `x & 0xFFFFF000` */
  function PageStart(x: u32): u32 { x - x % PAGE }

  /** Pages of a table for a memory of this size: one more than it fills. */
  function PageCount(size: u32): nat {
    Low32(PageStart(size) + PAGE) / PAGE
  }

  /** How many pages `MemoryMap` says it maps; its loop maps one more. */
  function MapCount(start: u32, end: u32): nat {
    if Low32(end - start) == PAGE then 1
    else Low32((if end % PAGE == 0 then Low32(end + PAGE) else Low32(PageStart(end) + PAGE)) - PageStart(start)) / PAGE
  }

  /** Pages `first` to `last`, as far as there are any, get the type. */
  function Mapped(pages: seq<Page>, ty: Page, first: nat, last: nat): (r: seq<Page>)
    ensures |r| == |pages|
    ensures forall k :: 0 <= k < |pages| ==> r[k] == if first <= k <= last then ty else pages[k]
  {
    seq(|pages|, k requires 0 <= k < |pages| => if first <= k <= last then ty else pages[k])
  }

  function Extended(pages: seq<Page>, n: nat): (r: seq<Page>)
    requires n >= |pages|
    ensures |r| == n && r[..|pages|] == pages
    ensures forall k :: |pages| <= k < n ==> r[k] == NoExist
  {
    pages + seq(n - |pages|, _ => NoExist)
  }

  // ----- what they mean for addresses -----

  /** A table has a page for every address up to and including the size. */
  lemma PageCountIs(size: u32)
    ensures PageCount(size) == if size < 0xFFFF_F000 then size / PAGE + 1 else 0
  {
  }

  /** Where a range of addresses is refused: when the page of its end is beyond the
      table, or, for a range of exactly a page, that of its start. */
  predicate Refused(length: nat, start: u32, end: u32) {
    if (end as int) - start == PAGE then start / PAGE >= length else end / PAGE >= length
  }

  lemma MapCountIs(start: u32, end: u32)
    requires start < end < 0xFFFF_F000
    ensures start / PAGE + MapCount(start, end) == (if (end as int) - start == PAGE then start / PAGE else end / PAGE) + 1
  {
    assert (PageStart(end) + PAGE - PageStart(start)) / PAGE == end / PAGE + 1 - start / PAGE;
  }

  /** What mapping a range does to the type of an address: every address in it has
      the new type, unless it is past the table; addresses on lower pages, and
      those more than a page above the end's, keep theirs. */
  ghost predicate MapsRange(before: seq<Page>, after: seq<Page>, ty: Page, start: u32, end: u32) {
    && |after| == |before|
    && (forall a: nat :: start <= a < end && a / PAGE < |after| ==> PageAt(after, a) == ty)
    && (forall a: nat :: a / PAGE < start / PAGE || a / PAGE > end / PAGE + 1 ==> PageAt(after, a) == PageAt(before, a))
  }

  lemma MappedRange(pages: seq<Page>, ty: Page, start: u32, end: u32)
    requires start < end < 0xFFFF_F000
    ensures MapsRange(pages, Mapped(pages, ty, start / PAGE, start / PAGE + MapCount(start, end)), ty, start, end)
  {
    hide MapCount;
    MapCountIs(start, end);
    var after := Mapped(pages, ty, start / PAGE, start / PAGE + MapCount(start, end));
    forall a: nat | start <= a < end && a / PAGE < |after|
      ensures PageAt(after, a) == ty
    {
      assert start / PAGE <= a / PAGE <= start / PAGE + MapCount(start, end);
    }
  }

  /** Nothing of a range that is not refused lies past the table, except for a
      range of exactly a page that starts inside the last page. */
  lemma InsideTable(length: nat, start: u32, end: u32)
    requires start < end < 0xFFFF_F000 && !Refused(length, start, end)
    ensures end <= PAGE * length <==> !((end as int) - start == PAGE && end / PAGE == length && end % PAGE != 0)
  {
  }

  // ----- the table -----

  class PageTable {
    var types: array<Page>
    var segments: array<u32>

    ghost predicate Valid()
      reads this
    {
      types.Length == segments.Length < 0x10_0001
    }

    /** Every page is absent at first. */
    constructor Build(size: u32)
      ensures Valid() && fresh(types) && fresh(segments)
      ensures types.Length == PageCount(size)
      ensures forall k :: 0 <= k < types.Length ==> types[k] == NoExist && segments[k] == Low32(k * PAGE)
    {
      var n := PageCount(size);
      types := new Page[n];
      segments := new u32[n](_ => 0);
      new;
      for i := 0 to n
        invariant types.Length == segments.Length == n && fresh(types) && fresh(segments)
        invariant forall k :: 0 <= k < i ==> types[k] == NoExist && segments[k] == Low32(k * PAGE)
      {
        types[i] := NoExist;
        segments[i] := Low32(i * PAGE);
      }
    }

    /** Cleared memory for `n` pages, as the allocator returns it. */
    constructor Blank(n: nat)
      requires n < 0x10_0001
      ensures Valid() && fresh(types) && fresh(segments) && types.Length == n
      ensures forall k :: 0 <= k < n ==> types[k] == NoExist && segments[k] == 0
    {
      types := new Page[n](_ => NoExist);
      segments := new u32[n](_ => 0);
    }

    /** A larger table with the same beginning; the new pages are absent. */
    method Rebuild(size: u32) returns (t: PageTable)
      requires Valid() && types.Length <= PageCount(size)
      ensures t.Valid() && fresh(t) && fresh(t.types) && fresh(t.segments)
      ensures t.types[..] == Extended(types[..], PageCount(size))
      ensures t.segments[..types.Length] == segments[..]
    {
      t := new PageTable.Blank(PageCount(size));
      for i := 0 to types.Length
        modifies t.types, t.segments
        invariant forall k :: 0 <= k < t.types.Length ==> t.types[k] == NoExist
      {
        t.types[i] := NoExist;
        t.segments[i] := Low32(i * PAGE);
      }
      for i := 0 to types.Length
        modifies t.types, t.segments
        invariant t.types[..i] == types[..i] && t.segments[..i] == segments[..i]
        invariant forall k :: i <= k < t.types.Length ==> t.types[k] == NoExist
      {
        if i >= PageCount(size) {
          break;
        }
        t.types[i] := types[i];
        t.segments[i] := segments[i];
      }
      assert t.types[..] == Extended(types[..], PageCount(size));
    }

    /** Refused when the pages counted do not fit; otherwise one page more than
        counted is mapped, the one past the table left out. */
    method Map(ty: Page, start: u32, end: u32) returns (ok: bool)
      requires Valid()
      modifies types
      ensures Valid()
      ensures ok == (start / PAGE + MapCount(start, end) <= types.Length)
      ensures types[..] == if ok then Mapped(old(types[..]), ty, start / PAGE, start / PAGE + MapCount(start, end))
                           else old(types[..])
      ensures start < end < 0xFFFF_F000 ==> ok == !Refused(types.Length, start, end)
      ensures ok && start < end < 0xFFFF_F000 ==> MapsRange(old(types[..]), types[..], ty, start, end)
    {
      hide MapsRange, MapCount;
      if start < end < 0xFFFF_F000 {
        MapCountIs(start, end);
        MappedRange(types[..], ty, start, end);
      }
      var first := PageStart(start) / PAGE;
      assert first == start / PAGE;
      var count := MapCount(start, end);
      if first > types.Length || first + count > types.Length {
        return false;
      }
      var i := 0;
      while i <= count
        invariant 0 <= i <= count + 1
        invariant forall k :: 0 <= k < types.Length ==>
                    types[k] == if first <= k < first + i then ty else old(types[k])
      {
        if first + i < types.Length {
          types[first + i] := ty;
        }
        i := i + 1;
      }
      assert types[..] == Mapped(old(types[..]), ty, first, first + count);
      ok := true;
    }

    /** The page past the table counts as absent. */
    function TypeAt(a: u32): (ty: Page)
      requires Valid()
      reads this, types
      ensures ty == PageAt(types[..], a)
    {
      var index := PageStart(a) / PAGE;
      assert index == a / PAGE;
      if index >= types.Length then NoExist else types[index]
    }

    /** The table after the heap of a memory of `size` bytes grew for `request`. */
    method GrowHeap(size: u32, request: u32) returns (t: PageTable, newSize: u32)
      requires Valid() && Room(size, request) && types.Length == size / PAGE + 1
      ensures t.Valid() && fresh(t) && fresh(t.types) && newSize == NewSize(size, request)
      ensures t.types[..] == PagesAfter(types[..], size, request)
    {
      hide PageCount, MapCount, HeapPages, Mapped, Extended;
      var n := HeapPages(request);
      newSize := Low32(size + PAGE * n);
      SizeAfter(size, request);
      t := Rebuild(newSize);
      var start := Low32(newSize - PAGE * n);
      assert start == size;
      var ok := t.Map(ReadWrite, start, newSize);
      assert ok;
    }
  }

  // ----- growing the heap -----

  /** Pages taken for a request. */
  function HeapPages(request: u32): (n: nat)
    ensures n < 0x10_0000
  {
    Low32(PageStart(request) + PAGE) / PAGE
  }

  function NewSize(size: u32, request: u32): u32 {
    Low32(size + PAGE * HeapPages(request))
  }

  /** Whole pages, and the grown memory with the page past its end still has
      32-bit addresses. */
  predicate Room(size: u32, request: u32) {
    size % PAGE == 0 && size + PAGE * HeapPages(request) + PAGE < 0x1_0000_0000
  }

  function PagesAfter(pages: seq<Page>, size: u32, request: u32): seq<Page>
    requires Room(size, request) && |pages| == size / PAGE + 1
  {
    SizeAfter(size, request);
    Mapped(Extended(pages, PageCount(NewSize(size, request))), ReadWrite, size / PAGE,
           size / PAGE + MapCount(size, NewSize(size, request)))
  }

  lemma SizeAfter(size: u32, request: u32)
    requires Room(size, request)
    ensures NewSize(size, request) == size + PAGE * HeapPages(request)
    ensures NewSize(size, request) % PAGE == 0
    ensures PageCount(NewSize(size, request)) == size / PAGE + HeapPages(request) + 1
    ensures size / PAGE + HeapPages(request) <= size / PAGE + MapCount(size, NewSize(size, request))
    ensures size / PAGE + MapCount(size, NewSize(size, request)) <= PageCount(NewSize(size, request))
  {
    hide HeapPages;
    var n := HeapPages(request);
    var m := size + PAGE * n;
    assert Low32(m) == m;
    assert m % PAGE == 0;
    assert (m + PAGE) / PAGE == size / PAGE + n + 1;
  }

  /** Growing the heap keeps every page below the old end and makes all pages
      from there on, the one past the new end included, readable and writable. */
  lemma PagesAfterGrowth(pages: seq<Page>, size: u32, request: u32)
    requires Room(size, request) && |pages| == size / PAGE + 1
    ensures var after := PagesAfter(pages, size, request);
            && |after| == NewSize(size, request) / PAGE + 1
            && after[..size / PAGE] == pages[..size / PAGE]
            && forall k :: size / PAGE <= k < |after| ==> after[k] == ReadWrite
  {
    hide HeapPages, MapCount, PageCount, NewSize;
    SizeAfter(size, request);
    assert (size + PAGE * HeapPages(request)) / PAGE == size / PAGE + HeapPages(request);
  }

  /** Pages for the request's last byte and one more, or for what is left of it:
      as many as fill the request, and never a page too few or two too many. */
  lemma HeapPagesIs(request: u32)
    ensures HeapPages(request) == if request < 0xFFFF_F000 then request / PAGE + 1 else 0
  {
  }

  /** The region returned is longer than the request, except for requests within
      a page of 2^32, which get nothing. */
  lemma RegionLonger(request: u32)
    ensures PAGE * HeapPages(request) > request <==> request < 0xFFFF_F000
    ensures request >= 0xFFFF_F000 ==> HeapPages(request) == 0
  {
  }

  // ----- successive requests -----

  datatype Heap = Heap(pages: seq<Page>, size: u32)

  predicate Aligned(h: Heap) {
    h.size % PAGE == 0 && |h.pages| == h.size / PAGE + 1
  }

  predicate AllRoom(size: u32, requests: seq<u32>)
    decreases |requests|
  {
    requests == [] || (Room(size, requests[0]) && AllRoom(NewSize(size, requests[0]), requests[1..]))
  }

  function Grow(h: Heap, request: u32): (r: Heap)
    requires Aligned(h) && Room(h.size, request)
    ensures Aligned(r) && r.size == NewSize(h.size, request)
  {
    PagesAfterGrowth(h.pages, h.size, request);
    SizeAfter(h.size, request);
    Heap(PagesAfter(h.pages, h.size, request), NewSize(h.size, request))
  }

  function GrowAll(h: Heap, requests: seq<u32>): (r: Heap)
    requires Aligned(h) && AllRoom(h.size, requests)
    ensures Aligned(r)
    decreases |requests|
  {
    if requests == [] then h else GrowAll(Grow(h, requests[0]), requests[1..])
  }

  /** First address and end of the region each request is given. */
  function Regions(size: u32, requests: seq<u32>): (r: seq<(nat, nat)>)
    requires AllRoom(size, requests)
    ensures |r| == |requests|
    decreases |requests|
  {
    if requests == [] then []
    else [(size as nat, NewSize(size, requests[0]) as nat)] + Regions(NewSize(size, requests[0]), requests[1..])
  }

  lemma OneGrowth(h: Heap, request: u32)
    requires Aligned(h) && Room(h.size, request)
    ensures var g := Grow(h, request);
            && g.size >= h.size
            && (forall a :: 0 <= a < h.size ==> PageAt(g.pages, a) == PageAt(h.pages, a))
            && (forall a :: h.size <= a < g.size ==> PageAt(g.pages, a) == ReadWrite)
  {
    hide HeapPages, MapCount, PageCount, PagesAfter;
    PagesAfterGrowth(h.pages, h.size, request);
    SizeAfter(h.size, request);
    var g := Grow(h, request);
    assert (h.size + PAGE * HeapPages(request)) / PAGE == h.size / PAGE + HeapPages(request);
    forall a | 0 <= a < h.size
      ensures PageAt(g.pages, a) == PageAt(h.pages, a)
    {
      assert a / PAGE < h.size / PAGE;
      assert g.pages[a / PAGE] == g.pages[..h.size / PAGE][a / PAGE];
    }
    forall a | h.size <= a < g.size
      ensures PageAt(g.pages, a) == ReadWrite
    {
      assert h.size / PAGE <= a / PAGE < g.size / PAGE;
    }
  }

  /** Over any run of requests the size stays aligned, memory below keeps its
      types, and all memory added is readable and writable. */
  lemma {:induction false} RunGrowth(h: Heap, requests: seq<u32>)
    requires Aligned(h) && AllRoom(h.size, requests)
    ensures var g := GrowAll(h, requests);
            && g.size >= h.size && g.size % PAGE == 0
            && (forall a :: 0 <= a < h.size ==> PageAt(g.pages, a) == PageAt(h.pages, a))
            && (forall a :: h.size <= a < g.size ==> PageAt(g.pages, a) == ReadWrite)
    decreases |requests|
  {
    hide Grow, PageAt, Room;
    if requests != [] {
      OneGrowth(h, requests[0]);
      RunGrowth(Grow(h, requests[0]), requests[1..]);
    }
  }

  lemma {:induction false} RegionsAbove(size: u32, requests: seq<u32>, i: nat)
    requires AllRoom(size, requests) && i < |requests|
    ensures var r := Regions(size, requests); size <= r[i].0 <= r[i].1 && r[i].1 == r[i].0 + PAGE * HeapPages(requests[i])
    decreases |requests|
  {
    hide HeapPages;
    SizeAfter(size, requests[0]);
    if i > 0 {
      RegionsAbove(NewSize(size, requests[0]), requests[1..], i - 1);
    }
  }

  /** No two regions overlap, and each is longer than its request unless the
      request was within a page of 2^32. */
  lemma {:induction false} RegionsApart(size: u32, requests: seq<u32>, i: nat, j: nat)
    requires AllRoom(size, requests) && i < j < |requests|
    ensures var r := Regions(size, requests);
            && r[i].1 <= r[j].0
            && (requests[i] < 0xFFFF_F000 <==> r[i].1 > r[i].0 + requests[i])
    decreases |requests|
  {
    hide HeapPages, Room;
    SizeAfter(size, requests[0]);
    RegionLonger(requests[i]);
    RegionsAbove(size, requests, i);
    if i > 0 {
      RegionsApart(NewSize(size, requests[0]), requests[1..], i - 1, j - 1);
    } else {
      RegionsAbove(NewSize(size, requests[0]), requests[1..], j - 1);
    }
  }

  /** Every address of every region is readable and writable ever after. */
  lemma {:induction false} RegionsWritable(h: Heap, requests: seq<u32>, i: nat, a: nat)
    requires Aligned(h) && AllRoom(h.size, requests) && i < |requests|
    requires Regions(h.size, requests)[i].0 <= a < Regions(h.size, requests)[i].1
    ensures PageAt(GrowAll(h, requests).pages, a) == ReadWrite
    decreases |requests|
  {
    hide Grow, PageAt, Room;
    RegionsAbove(h.size, requests, i);
    RegionsEnd(h, requests, i);
    RunGrowth(h, requests);
  }

  lemma {:induction false} RegionsEnd(h: Heap, requests: seq<u32>, i: nat)
    requires Aligned(h) && AllRoom(h.size, requests) && i < |requests|
    ensures Regions(h.size, requests)[i].1 <= GrowAll(h, requests).size
    decreases |requests|
  {
    hide PageAt, Room, PagesAfter;
    if i > 0 {
      RegionsEnd(Grow(h, requests[0]), requests[1..], i - 1);
    } else {
      RunGrowth(Grow(h, requests[0]), requests[1..]);
    }
  }
}
