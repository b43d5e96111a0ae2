/** The page frame allocator: a free list whose links are stored in the free pages themselves. */
module FrameAllocator {
  import opened Common
  import opened Options

  /** Following `links` from `head` gives exactly `pages`. */
  ghost predicate Linked(links: map<nat, Option<nat>>, head: Option<nat>, pages: seq<nat>)
    decreases |pages|
  {
    if pages == [] then head == None
    else head == Some(pages[0]) && pages[0] in links && Linked(links, links[pages[0]], pages[1..])
  }

  /** What is stored in pages outside the list does not matter to it. */
  lemma {:induction false} LinkedElsewhere(links: map<nat, Option<nat>>, head: Option<nat>, pages: seq<nat>, page: nat,
                                           v: Option<nat>)
    requires Linked(links, head, pages) && page !in pages
    ensures Linked(links[page := v], head, pages)
    decreases |pages|
  {
    if pages != [] { LinkedElsewhere(links, links[pages[0]], pages[1..], page, v); }
  }

  class PageFrameAllocator {
    const start: nat
    const end: nat
    var links: map<nat, Option<nat>>
    var freeList: Option<nat>
    var totalPages: nat
    var freePages: nat
    ghost var pages: seq<nat>

    ghost predicate InHeap(page: nat) {
      start <= page < end && page % PAGE_SIZE == 0
    }

    ghost predicate Valid()
      reads this
    {
      && Linked(links, freeList, pages) && Spread(pages) && freePages == |pages|
      && (forall i {:trigger pages[i]} :: 0 <= i < |pages| ==> InHeap(pages[i]))
      && totalPages * PAGE_SIZE == end - start
    }

    /** `new`: every page of the heap is free, the lowest first. */
    constructor (start: nat, end: nat)
      requires start % PAGE_SIZE == 0 && end % PAGE_SIZE == 0 && start <= end
      ensures Valid() && this.start == start && this.end == end && freePages == totalPages
      ensures forall i {:trigger pages[i]} :: 0 <= i < |pages| ==> pages[i] == start + i * PAGE_SIZE
    {
      this.start, this.end := start, end;
      links, freeList, totalPages, freePages, pages := map[], None, 0, 0, [];
      new;
      var p := end;
      while p > start
        invariant start <= p <= end && p % PAGE_SIZE == 0 && totalPages * PAGE_SIZE == end - p && |pages| == totalPages
        invariant Linked(links, freeList, pages)
        invariant forall i {:trigger pages[i]} :: 0 <= i < |pages| ==> pages[i] == p + i * PAGE_SIZE
        decreases p
      {
        Below(start, p);
        p := p - PAGE_SIZE;
        ghost var was := pages;
        assert p !in pages;
        LinkedElsewhere(links, freeList, pages, p, freeList);
        links := links[p := freeList];
        freeList := Some(p);
        pages := [p] + pages;
        totalPages := totalPages + 1;
        assert pages[1..] == was;
      }
      freePages := totalPages;
      forall i {:trigger pages[i]} | 0 <= i < |pages| ensures InHeap(pages[i]) { Multiple(start, i); }
    }

    /** `alloc`. */
    method Alloc() returns (r: Option<nat>)
      requires Valid()
      modifies this
      ensures Valid() && links == old(links) && totalPages == old(totalPages)
      ensures r.None? <==> old(pages) == []
      ensures r.None? ==> pages == []
      ensures r.Some? ==> r.value == old(pages)[0] && pages == old(pages)[1..] && InHeap(r.value) && r.value !in pages
    {
      r := freeList;
      if r.Some? {
        freeList := links[r.value];
        freePages := freePages - 1;
        pages := pages[1..];
      }
    }

    /** `free` of a page that is not free. */
    method Free(page: nat)
      requires Valid() && InHeap(page) && page !in pages
      modifies this
      ensures Valid() && pages == [page] + old(pages) && totalPages == old(totalPages)
    {
      LinkedElsewhere(links, freeList, pages, page, freeList);
      links := links[page := freeList];
      freeList := Some(page);
      freePages := freePages + 1;
      pages := [page] + pages;
      assert pages[1..] == old(pages);
    }

    /** The owner of an allocated page writes to it. */
    method Overwrite(page: nat, v: Option<nat>)
      requires Valid() && page !in pages
      modifies this`links
      ensures Valid() && links == old(links)[page := v]
    {
      LinkedElsewhere(links, freeList, pages, page, v);
      links := links[page := v];
    }
  }

  lemma Multiple(start: nat, i: nat)
    requires start % PAGE_SIZE == 0
    ensures (start + i * PAGE_SIZE) % PAGE_SIZE == 0
  {
    assert start + i * PAGE_SIZE == PAGE_SIZE * (start / PAGE_SIZE + i);
  }

  lemma Below(start: nat, p: nat)
    requires start % PAGE_SIZE == 0 && p % PAGE_SIZE == 0 && start < p
    ensures start <= p - PAGE_SIZE && (p - PAGE_SIZE) % PAGE_SIZE == 0
  {
  }
}
