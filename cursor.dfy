/**
  The cursor store: the pager data file that holds one integer offset across
  runs, how a run opens it, and the rule that rewrites it from a page's links.
 */
module CursorStore {
  import opened HarvestTypes

  /** The file at `jsonapi_pager_data_file_path`. `contents` is `None` while
      the file does not exist. When the location cannot be written every
      write is lost, as PHP 7 does it: `file_put_contents` warns and returns
      false (the default empty path, for one, under PHP 7). */
  class CursorFile {
    const writable: bool
    var contents: Option<int>

    constructor (writable: bool, contents: Option<int>)
      ensures this.writable == writable && this.contents == contents
    {
      this.writable := writable;
      this.contents := contents;
    }

    /** `file_put_contents`: the last write wins, if it can be made at all. */
    method Write(offset: int)
      modifies this
      ensures contents == if writable then Some(offset) else old(contents)
    {
      if writable {
        contents := Some(offset);
      }
    }
  }

  /** What a run starts from: the offset its page requests use, and the
      store's contents once the run has opened it. */
  datatype Opened = Opened(start: int, contents: Option<int>)

  /** Opening the store at the start of a run: an existing file gives its
      offset and is left alone; a missing one gives 0 and is created as 0. */
  function OpenCursor(c: Option<int>, writable: bool): (o: Opened)
    ensures c.Some? ==> o == Opened(c.value, c)
    ensures c.None? ==> o.start == 0
    ensures c.None? ==> o.contents == if writable then Some(0) else None
  {
    if c.Some? then Opened(c.value, c)
    else Opened(0, if writable then Some(0) else None)
  }

  /** Whatever the store held, a later open finds the offset this open
      started from, and changes nothing further. */
  lemma ReopenStartsAtSameOffset(c: Option<int>, writable: bool)
    ensures OpenCursor(OpenCursor(c, writable).contents, writable) == OpenCursor(c, writable)
    ensures writable ==> OpenCursor(c, writable).contents == Some(OpenCursor(c, writable).start)
  {
  }

  /** The store after a successful page, as `setPageOffset` leaves it: the
      `next` link's offset if there is a `next` link, else the `first` link's
      offset (the start of a new cycle), else unchanged. */
  function CursorAfter(c: Option<int>, writable: bool, links: Links): (r: Option<int>)
    ensures links.next.Some? && writable ==> r == Some(links.next.value.offset)
    ensures links.next.None? && links.first.Some? && writable ==> r == Some(links.first.value.offset)
    ensures links.next.None? && links.first.None? ==> r == c
    ensures !writable ==> r == c
  {
    if !writable then c
    else if links.next.Some? then Some(links.next.value.offset)
    else if links.first.Some? then Some(links.first.value.offset)
    else c
  }

  /** Applying the rule twice with the same links is applying it once. */
  lemma CursorAfterIdempotent(c: Option<int>, writable: bool, links: Links)
    ensures CursorAfter(CursorAfter(c, writable, links), writable, links) == CursorAfter(c, writable, links)
  {
  }

  /** The rule never invents an offset: the store keeps its value or takes
      one of the two links' offsets; and the `prev` link plays no part. */
  lemma CursorAfterSources(c: Option<int>, writable: bool, links: Links)
    ensures var r := CursorAfter(c, writable, links);
      r == c
      || (links.next.Some? && r == Some(links.next.value.offset))
      || (links.first.Some? && r == Some(links.first.value.offset))
    ensures CursorAfter(c, writable, links) == CursorAfter(c, writable, links.(prev := None))
  {
  }
}
