/**
  One run of the multifile Drupal fetch plugin: validate the page sizing,
  open the cursor store, probe the collection, request the run's pages,
  accumulate their nodes and project them to output records.
 */
module Harvest {
  import opened HarvestTypes
  import opened Sizing
  import opened CursorStore
  import opened Paging
  import opened Projector

  /** What a run returns, the store it leaves and the requests it issues. */
  datatype Outcome = Outcome(result: RunResult, cursor: Option<int>, log: seq<Request>)

  /** The page responses a run receives: none when the configuration is
      rejected or the probe fails, otherwise one per page of the run, all
      requested at the offset the store held when the run started. */
  function RunResponses(cfg: Config, writable: bool, stored: Option<int>, remote: Remote): seq<PageResponse>
    requires cfg.pageSize != 0
  {
    match PagesPerRun(cfg.pageSize, cfg.maxResources)
    case None => []
    case Some(n) =>
      if remote.probe.status != 200 then []
      else Responses(remote.page, OpenCursor(stored, writable).start, cfg.pageSize, ProbedPages(n, remote.probe.links))
  }

  /** The part of a run after a successful probe: `pages` requests at the
      start offset, the nodes of the status-200 responses, the store they
      leave, and the projection of the nodes unless there are none. */
  function Harvested(cfg: Config, writable: bool, initial: Opened, pages: nat, remote: Remote): Outcome
  {
    var rs := Responses(remote.page, initial.start, cfg.pageSize, pages);
    var cursor := CursorAfterPages(initial.contents, writable, rs);
    var log := Repeat([PageRequest(initial.start, cfg.pageSize)], pages);
    var nodes := Accumulate(rs);
    if |nodes| == 0 then Outcome(Empty, cursor, log)
    else
      var p := ProjectNodes(nodes, None, cfg.useFedoraUrls, remote.media, remote.lookup);
      Outcome(Records(p.records), cursor, log + p.log)
  }

  /** The part of a run after the sizing check passed with `n` pages: open
      the store, probe, and harvest unless the probe failed. */
  function Probed(cfg: Config, writable: bool, stored: Option<int>, n: nat, remote: Remote): Outcome
  {
    var initial := OpenCursor(stored, writable);
    if remote.probe.status != 200 then Outcome(ProbeError, initial.contents, [ProbeRequest])
    else
      var h := Harvested(cfg, writable, initial, ProbedPages(n, remote.probe.links), remote);
      Outcome(h.result, h.cursor, [ProbeRequest] + h.log)
  }

  /** A whole run, from the configuration, the store's contents and what the
      remote side answers. */
  function Run(cfg: Config, writable: bool, stored: Option<int>, remote: Remote): Outcome
    requires cfg.pageSize != 0
  {
    match PagesPerRun(cfg.pageSize, cfg.maxResources)
    case None => Outcome(ConfigError, stored, [])
    case Some(n) => Probed(cfg, writable, stored, n, remote)
  }

  /** The offsets of the page requests in a request log, in order. */
  function PageOffsets(log: seq<Request>): seq<int>
  {
    if |log| == 0 then []
    else
      var last := log[|log| - 1];
      PageOffsets(log[..|log| - 1]) + (if last.PageRequest? then [last.offset] else [])
  }

  lemma {:induction false} PageOffsetsAppend(a: seq<Request>, b: seq<Request>)
    ensures PageOffsets(a + b) == PageOffsets(a) + PageOffsets(b)
    decreases |b|
  {
    if |b| == 0 {
      ConcatEmpty(a);
    } else {
      ConcatFront(a, b);
      PageOffsetsAppend(a, b[..|b| - 1]);
    }
  }

  lemma {:induction false} PageOffsetsRepeat(offset: int, limit: int, n: nat)
    ensures PageOffsets(Repeat([PageRequest(offset, limit)], n)) == Repeat([offset], n)
  {
    if n > 0 {
      PageOffsetsRepeat(offset, limit, n - 1);
      PageOffsetsAppend(Repeat([PageRequest(offset, limit)], n - 1), [PageRequest(offset, limit)]);
      assert PageOffsets([PageRequest(offset, limit)]) == [offset];
    }
  }

  lemma {:induction false} PageOffsetsNone(log: seq<Request>)
    requires forall r :: r in log ==> r.MediaRequest? || r.LookupRequest?
    ensures PageOffsets(log) == []
  {
    if |log| > 0 {
      assert log[|log| - 1] in log;
      assert forall r :: r in log[..|log| - 1] ==> r in log;
      PageOffsetsNone(log[..|log| - 1]);
    }
  }

  /** A configuration error happens exactly when `max_resources` is not a
      multiple of the page size; it comes before any request and before the
      store is touched. */
  lemma ConfigErrorBeforeAnyRequest(cfg: Config, writable: bool, stored: Option<int>, remote: Remote)
    requires cfg.pageSize != 0
    ensures Run(cfg, writable, stored, remote).result == ConfigError <==> cfg.maxResources % cfg.pageSize != 0
    ensures Run(cfg, writable, stored, remote).result == ConfigError ==>
      Run(cfg, writable, stored, remote).log == [] && Run(cfg, writable, stored, remote).cursor == stored
  {
  }

  /** With a valid configuration, the run fails exactly when the probe is not
      answered with status 200; then the probe is its only request and the
      store is left as opening it left it. */
  lemma ProbeFailureIsFatal(cfg: Config, writable: bool, stored: Option<int>, remote: Remote)
    requires cfg.pageSize != 0 && cfg.maxResources % cfg.pageSize == 0
    ensures Run(cfg, writable, stored, remote).result == ProbeError <==> remote.probe.status != 200
    ensures remote.probe.status != 200 ==>
      Run(cfg, writable, stored, remote).log == [ProbeRequest] &&
      Run(cfg, writable, stored, remote).cursor == OpenCursor(stored, writable).contents
  {
  }

  /** After a successful probe, the run requests its pages one after the
      other, every one at the offset the store held when the run started, as
      many as the sizing gives, or exactly one when the probe's links carry
      neither `next` nor `prev`. */
  lemma {:induction false} PageRequestsUseStartOffset(cfg: Config, writable: bool, stored: Option<int>, remote: Remote)
    requires cfg.pageSize != 0 && cfg.maxResources % cfg.pageSize == 0
    requires remote.probe.status == 200
    ensures var n := PagesPerRun(cfg.pageSize, cfg.maxResources).value;
      PageOffsets(Run(cfg, writable, stored, remote).log)
        == Repeat([OpenCursor(stored, writable).start], ProbedPages(n, remote.probe.links))
    ensures remote.probe.links.next.None? && remote.probe.links.prev.None? ==>
      PageOffsets(Run(cfg, writable, stored, remote).log) == [OpenCursor(stored, writable).start]
  {
    var n := PagesPerRun(cfg.pageSize, cfg.maxResources).value;
    var initial := OpenCursor(stored, writable);
    var pages := ProbedPages(n, remote.probe.links);
    HarvestedPageOffsets(cfg, writable, initial, pages, remote);
    PageOffsetsAppend([ProbeRequest], Harvested(cfg, writable, initial, pages, remote).log);
    assert PageOffsets([ProbeRequest]) == [];
    if remote.probe.links.next.None? && remote.probe.links.prev.None? {
      assert Repeat([initial.start], 1) == [initial.start];
    }
  }

  /** The requests after the probe are the run's page requests, all at the
      start offset, followed by media and lookup requests only. */
  lemma HarvestedPageOffsets(cfg: Config, writable: bool, initial: Opened, pages: nat, remote: Remote)
    ensures PageOffsets(Harvested(cfg, writable, initial, pages, remote).log) == Repeat([initial.start], pages)
  {
    var pageLog := Repeat([PageRequest(initial.start, cfg.pageSize)], pages);
    PageOffsetsRepeat(initial.start, cfg.pageSize, pages);
    var nodes := Accumulate(Responses(remote.page, initial.start, cfg.pageSize, pages));
    if |nodes| > 0 {
      var p := ProjectNodes(nodes, None, cfg.useFedoraUrls, remote.media, remote.lookup);
      ProjectNodesLog(nodes, None, cfg.useFedoraUrls, remote.media, remote.lookup);
      PageOffsetsNone(p.log);
      PageOffsetsAppend(pageLog, p.log);
      ConcatEmpty(Repeat([initial.start], pages));
    }
  }

  /** After a successful probe, the run ends with no records and no error
      exactly when no status-200 page carried a node. */
  lemma EmptyBatchIsNormalExit(cfg: Config, writable: bool, stored: Option<int>, remote: Remote)
    requires cfg.pageSize != 0 && cfg.maxResources % cfg.pageSize == 0
    requires remote.probe.status == 200
    ensures var rs := RunResponses(cfg, writable, stored, remote);
      (Run(cfg, writable, stored, remote).result == Empty)
        <==> (forall i :: 0 <= i < |rs| && rs[i].status == 200 ==> rs[i].data == [])
  {
    AccumulateEmptyIff(RunResponses(cfg, writable, stored, remote));
  }

  /** The store a run leaves is decided by its last status-200 page: its
      `next` link's offset, else its `first` link's offset, else what the
      earlier pages left. With no status-200 page it is as the run opened it. */
  lemma CursorFollowsLastSuccessfulPage(cfg: Config, writable: bool, stored: Option<int>, remote: Remote, k: nat)
    requires cfg.pageSize != 0 && cfg.maxResources % cfg.pageSize == 0
    requires remote.probe.status == 200
    requires var rs := RunResponses(cfg, writable, stored, remote);
      k < |rs| && rs[k].status == 200 && forall j :: k < j < |rs| ==> rs[j].status != 200
    ensures var rs := RunResponses(cfg, writable, stored, remote);
      var initial := OpenCursor(stored, writable).contents;
      Run(cfg, writable, stored, remote).cursor
        == CursorAfter(CursorAfterPages(initial, writable, rs[..k]), writable, rs[k].links)
  {
    var rs := RunResponses(cfg, writable, stored, remote);
    LastSuccessDecides(OpenCursor(stored, writable).contents, writable, rs, k);
  }

  lemma NoSuccessfulPageKeepsCursor(cfg: Config, writable: bool, stored: Option<int>, remote: Remote)
    requires cfg.pageSize != 0 && cfg.maxResources % cfg.pageSize == 0
    requires remote.probe.status == 200
    requires var rs := RunResponses(cfg, writable, stored, remote);
      forall i :: 0 <= i < |rs| ==> rs[i].status != 200
    ensures Run(cfg, writable, stored, remote).cursor == OpenCursor(stored, writable).contents
    ensures Run(cfg, writable, stored, remote).result == Empty
  {
    var rs := RunResponses(cfg, writable, stored, remote);
    NoSuccessKeepsCursor(OpenCursor(stored, writable).contents, writable, rs);
    AccumulateEmptyIff(rs);
  }

  /** The records of a run are the flat list of the media entries of the
      accumulated nodes, projected in order from no target file. */
  lemma RecordsFollowMediaEntries(cfg: Config, writable: bool, stored: Option<int>, remote: Remote)
    requires cfg.pageSize != 0
    requires Run(cfg, writable, stored, remote).result.Records?
    ensures var nodes := Accumulate(RunResponses(cfg, writable, stored, remote));
      Run(cfg, writable, stored, remote).result.records
        == ProjectEntries(MediaEntries(nodes, remote.media), None, cfg.useFedoraUrls, remote.lookup).records
  {
    var nodes := Accumulate(RunResponses(cfg, writable, stored, remote));
    ProjectNodesFlattens(nodes, None, cfg.useFedoraUrls, remote.media, remote.lookup);
  }

  /** The plugin object: the settings it was created with, the pager data
      file, and the fields `execute` sets. */
  class Harvester {
    const settings: Settings
    const cursorFile: CursorFile
    var pageSize: int
    var maxResources: int
    var useFedoraUrls: bool
    var pagesPerRun: nat

    constructor (settings: Settings, cursorFile: CursorFile)
      ensures this.settings == settings && this.cursorFile == cursorFile
    {
      this.settings := settings;
      this.cursorFile := cursorFile;
      pageSize, maxResources, useFedoraUrls, pagesPerRun := 0, 0, true, 0;
    }

    /** `setPageOffset`: rewrites the store from a successful page's links.
        The offset the page was requested with is passed but not used. */
    method SetPageOffset(pageOffset: int, links: Links)
      modifies cursorFile
      ensures cursorFile.contents == CursorAfter(old(cursorFile.contents), cursorFile.writable, links)
    {
      if links.next.Some? {
        cursorFile.Write(links.next.value.offset);
      } else if links.first.Some? {
        cursorFile.Write(links.first.value.offset);
      }
    }

    /** The sizing check of `execute`: the page size and `max_resources`
        with their defaults, the multiple check, and the pages per run. */
    method ConfigureRun() returns (valid: bool)
      requires ResolveConfig(settings).pageSize != 0
      modifies this
      ensures Config(pageSize, maxResources, useFedoraUrls) == ResolveConfig(settings)
      ensures valid <==> PagesPerRun(pageSize, maxResources).Some?
      ensures valid ==> pagesPerRun == PagesPerRun(pageSize, maxResources).value
      ensures !valid ==> pagesPerRun == old(pagesPerRun)
    {
      var cfg := ResolveConfig(settings);
      pageSize, maxResources, useFedoraUrls := cfg.pageSize, cfg.maxResources, cfg.useFedoraUrls;
      if PhpRem(maxResources, pageSize) != 0 {
        return false;
      } else if maxResources / pageSize >= 1 {
        pagesPerRun := maxResources / pageSize;
      } else {
        pagesPerRun := 1;
      }
      return true;
    }

    /** Opening the pager file in `execute`: the offset the run starts from,
        and the store created as 0 when the file does not exist. */
    method OpenPageOffset() returns (pageOffset: int)
      modifies cursorFile
      ensures Opened(pageOffset, cursorFile.contents) == OpenCursor(old(cursorFile.contents), cursorFile.writable)
    {
      if cursorFile.contents.Some? {
        pageOffset := cursorFile.contents.value;
      } else {
        pageOffset := 0;
        cursorFile.Write(pageOffset);
      }
    }

    /** The paging loop of `execute`: `pagesPerRun` requests, all at
        `pageOffset`; a status-200 response adds its nodes and rewrites the
        store, any other is skipped. */
    method FetchPages(remote: Remote, pageOffset: int) returns (wholeNodeList: seq<Node>, log: seq<Request>)
      modifies cursorFile
      ensures var rs := Responses(remote.page, pageOffset, pageSize, pagesPerRun);
        wholeNodeList == Accumulate(rs) &&
        cursorFile.contents == CursorAfterPages(old(cursorFile.contents), cursorFile.writable, rs) &&
        log == Repeat([PageRequest(pageOffset, pageSize)], pagesPerRun)
    {
      var n, limit := pagesPerRun, pageSize;
      ghost var c0, writable := cursorFile.contents, cursorFile.writable;
      wholeNodeList, log := [], [];
      var p := 1;
      while p <= n
        invariant 1 <= p <= n + 1
        invariant wholeNodeList == Accumulate(Responses(remote.page, pageOffset, limit, p - 1))
        invariant cursorFile.contents == CursorAfterPages(c0, writable, Responses(remote.page, pageOffset, limit, p - 1))
        invariant log == Repeat([PageRequest(pageOffset, limit)], p - 1)
      {
        var response := remote.page(p, pageOffset, limit);
        log := log + [PageRequest(pageOffset, limit)];
        if response.status == 200 {
          wholeNodeList := wholeNodeList + response.data;
          SetPageOffset(pageOffset, response.links);
        }
        ResponsesSnoc(remote.page, pageOffset, limit, p - 1, c0, writable);
        p := p + 1;
      }
    }

    /** The rest of `execute` after a successful probe: the paging loop,
        the exit on an empty node list, and the projector. */
    method CollectRecords(remote: Remote, pageOffset: int, ghost cfg: Config) returns (result: RunResult, log: seq<Request>)
      requires cfg == Config(pageSize, maxResources, useFedoraUrls)
      modifies cursorFile
      ensures Outcome(result, cursorFile.contents, log)
           == Harvested(cfg, cursorFile.writable, Opened(pageOffset, old(cursorFile.contents)), pagesPerRun, remote)
    {
      var wholeNodeList;
      wholeNodeList, log := FetchPages(remote, pageOffset);
      if |wholeNodeList| == 0 {
        return Empty, log;
      }
      var records, projectionLog := ProjectRecords(wholeNodeList, useFedoraUrls, remote.media, remote.lookup);
      return Records(records), log + projectionLog;
    }

    /** `execute` once the sizing is valid: open the pager file, probe,
        shrink the run to one page when the probe shows no `next` or `prev`
        link, and collect. */
    method ProbeAndCollect(remote: Remote, ghost cfg: Config) returns (result: RunResult, log: seq<Request>)
      requires cfg == Config(pageSize, maxResources, useFedoraUrls)
      modifies this`pagesPerRun, cursorFile
      ensures Outcome(result, cursorFile.contents, log)
           == Probed(cfg, cursorFile.writable, old(cursorFile.contents), old(pagesPerRun), remote)
      ensures pagesPerRun == if remote.probe.status != 200 then old(pagesPerRun) else ProbedPages(old(pagesPerRun), remote.probe.links)
    {
      var pageOffset := OpenPageOffset();
      if remote.probe.status != 200 {
        return ProbeError, [ProbeRequest];
      }
      if remote.probe.links.next.None? && remote.probe.links.prev.None? {
        pagesPerRun := 1;
      }
      var collectLog;
      result, collectLog := CollectRecords(remote, pageOffset, cfg);
      log := [ProbeRequest] + collectLog;
    }

    /** `execute`, with every response an input and every `exit` a result. */
    method Execute(remote: Remote) returns (result: RunResult, log: seq<Request>)
      requires ResolveConfig(settings).pageSize != 0
      modifies this, cursorFile
      ensures Outcome(result, cursorFile.contents, log) == Run(ResolveConfig(settings), cursorFile.writable, old(cursorFile.contents), remote)
      ensures Config(pageSize, maxResources, useFedoraUrls) == ResolveConfig(settings)
      ensures var c := ResolveConfig(settings);
        var sizing := PagesPerRun(c.pageSize, c.maxResources);
        sizing.Some? ==> pagesPerRun == if remote.probe.status != 200 then sizing.value else ProbedPages(sizing.value, remote.probe.links)
    {
      ghost var cfg, stored := ResolveConfig(settings), cursorFile.contents;
      var valid := ConfigureRun();
      if !valid {
        assert Run(cfg, cursorFile.writable, stored, remote) == Outcome(ConfigError, stored, []);
        return ConfigError, [];
      }
      assert Run(cfg, cursorFile.writable, stored, remote) == Probed(cfg, cursorFile.writable, stored, pagesPerRun, remote);
      result, log := ProbeAndCollect(remote, cfg);
    }
  }
}
