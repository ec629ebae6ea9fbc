/**
  The values the harvester exchanges with its collaborators, already decoded
  from JSON: the content API's collection pages, the per-node media lists,
  the Gemini lookup service's answers, and the records the run emits.
 */
module HarvestTypes {

  datatype Option<+T> = None | Some(value: T)

  /** A JSON:API pagination link, reduced to the integer value of the
      `page[offset]` query parameter of its href. */
  datatype Link = Link(offset: int)

  /** The `links` member of a collection response; a key that is not present
      is `None`. Only `next`, `prev` and `first` steer the harvester. */
  datatype Links = Links(next: Option<Link>, prev: Option<Link>, first: Option<Link>)

  /** A content node; only its `drupal_internal__nid` attribute is used. */
  datatype Node = Node(nid: int)

  /** One response of the collection endpoint: status code, `data` and `links`. */
  datatype PageResponse = PageResponse(status: int, data: seq<Node>, links: Links)

  /** The first item of a media file field: the file entity's UUID and its URL. */
  datatype FileRef = FileRef(targetUuid: string, url: string)

  /** One media entry of a node: `revision_created[0].value` and the three
      file fields the harvester looks at, `None` when the field is not set. */
  datatype MediaEntry = MediaEntry(
    revised: string,
    image: Option<FileRef>,
    file: Option<FileRef>,
    video: Option<FileRef>)

  /** The response of `/node/{nid}/media`: status code and the decoded list. */
  datatype MediaResponse = MediaResponse(status: int, entries: seq<MediaEntry>)

  /** The response of the Gemini lookup: status code and the body's `fedora`
      field (the empty string when the body has none). */
  datatype LookupResponse = LookupResponse(status: int, fedora: string)

  /** One emitted record. `resourceId` is `None` where the source stores PHP's
      null (the image field's URL of an entry that has no image field). */
  datatype OutputRecord = OutputRecord(resourceId: Option<string>, lastModified: string)

  /** The HTTP requests a run issues, in order. */
  datatype Request =
    | ProbeRequest
    | PageRequest(offset: int, limit: int)
    | MediaRequest(nid: int)
    | LookupRequest(uuid: string)

  /** How a run ends: the two `exit(1)` paths, the plain `exit` on an empty
      node list, or the returned list of records. */
  datatype RunResult = ConfigError | ProbeError | Empty | Records(records: seq<OutputRecord>)

  /** Everything the remote side answers. `page(p, offset, limit)` is the
      response to the p-th page request of the run (the collection may change
      between requests); media lists are looked up by node id, Gemini answers
      by file UUID, so a repeated media or lookup request in one run gets the
      same answer. */
  datatype Remote = Remote(
    probe: PageResponse,
    page: (nat, int, int) -> PageResponse,
    media: int -> MediaResponse,
    lookup: string -> LookupResponse)

  /** `n` copies of `s`, one after the other. */
  function Repeat<T>(s: seq<T>, n: nat): seq<T>
  {
    if n == 0 then [] else Repeat(s, n - 1) + s
  }

  // Sequence facts, each proved in a context of its own.

  lemma SnocPrefix<T>(s: seq<T>, x: T)
    ensures (s + [x])[..|s|] == s
  {
  }

  lemma TakeSnoc<T>(s: seq<T>, j: nat)
    requires j < |s|
    ensures s[..j + 1] == s[..j] + [s[j]]
  {
  }

  lemma SplitLast<T>(s: seq<T>)
    requires |s| > 0
    ensures s == s[..|s| - 1] + [s[|s| - 1]]
  {
  }

  lemma TakeAll<T>(s: seq<T>)
    ensures s[..|s|] == s
  {
  }

  lemma ConcatSnoc<T>(a: seq<T>, b: seq<T>, m: T)
    ensures a + (b + [m]) == (a + b) + [m]
  {
  }

  lemma ConcatAssoc<T>(a: seq<T>, b: seq<T>, c: seq<T>)
    ensures (a + b) + c == a + (b + c)
  {
  }

  lemma ConcatEmpty<T>(a: seq<T>)
    ensures a + [] == a
  {
  }

  lemma ConcatFront<T>(a: seq<T>, b: seq<T>)
    requires |b| > 0
    ensures (a + b)[..|a + b| - 1] == a + b[..|b| - 1] && (a + b)[|a + b| - 1] == b[|b| - 1]
  {
  }

  lemma TakeTake<T>(s: seq<T>, j: nat, k: nat)
    requires k <= j <= |s|
    ensures s[..j][..k] == s[..k]
  {
  }
}
