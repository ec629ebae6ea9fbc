/**
  The record projector: for every accumulated node, its media list; for every
  media entry, the file field it targets, the resource id that field yields
  (through Gemini or as a literal URL), and at most one output record.
 */
module Projector {
  import opened HarvestTypes
  import opened Gemini

  /** The target file after looking at one entry. The fields are tested in
      the order image, file, video and each one present overwrites the
      target, so the last present one wins; an entry without any of them
      leaves the previous entry's target in place. */
  function ChooseTarget(m: MediaEntry, previous: Option<FileRef>): (t: Option<FileRef>)
    ensures m.video.Some? ==> t == m.video
    ensures m.video.None? && m.file.Some? ==> t == m.file
    ensures m.video.None? && m.file.None? && m.image.Some? ==> t == m.image
    ensures m.video.None? && m.file.None? && m.image.None? ==> t == previous
  {
    var afterImage := if m.image.Some? then m.image else previous;
    var afterFile := if m.file.Some? then m.file else afterImage;
    if m.video.Some? then m.video else afterFile
  }

  /** `$target_file[0]['target_uuid']`; a target never set is PHP's null,
      which the lookup URL turns into the empty string. */
  function UuidOf(t: Option<FileRef>): string
  {
    if t.Some? then t.value.targetUuid else ""
  }

  /** `$target_file[0]['url']`; null (length 0) for a target never set. */
  function UrlOf(t: Option<FileRef>): string
  {
    if t.Some? then t.value.url else ""
  }

  /** `$media['field_media_image'][0]['url']`: null when the entry has no
      image field. */
  function ImageUrl(m: MediaEntry): Option<string>
  {
    if m.image.Some? then Some(m.image.value.url) else None
  }

  /** The lookup request one entry costs. */
  function EntryRequests(t: Option<FileRef>, useFedora: bool): seq<Request>
  {
    if useFedora then [LookupRequest(UuidOf(t))] else []
  }

  /** The records one entry with target `t` yields. With Fedora URLs on, one
      record exactly when Gemini resolves the target's UUID to a non-empty
      URL, and that URL is its id. With them off, one record exactly when the
      target's URL is non-empty, and its id is the IMAGE field's URL. */
  function Emit(m: MediaEntry, t: Option<FileRef>, useFedora: bool, lookup: string -> LookupResponse): (out: seq<OutputRecord>)
    ensures |out| <= 1
    ensures useFedora ==> (|out| == 1 <==> Resolved(FedoraUrl(lookup(UuidOf(t)))))
    ensures useFedora && |out| == 1 ==> out[0] == OutputRecord(FedoraUrl(lookup(UuidOf(t))), m.revised)
    ensures !useFedora ==> (|out| == 1 <==> |UrlOf(t)| > 0)
    ensures !useFedora && |out| == 1 ==> out[0] == OutputRecord(ImageUrl(m), m.revised)
  {
    if useFedora then
      var url := FedoraUrl(lookup(UuidOf(t)));
      if Resolved(url) then [OutputRecord(url, m.revised)] else []
    else if |UrlOf(t)| > 0 then [OutputRecord(ImageUrl(m), m.revised)]
    else []
  }

  /** What the projector has produced so far, and the target it carries. */
  datatype Projection = Projection(records: seq<OutputRecord>, log: seq<Request>, target: Option<FileRef>)

  /** One entry more: its target, its record if any, its lookup if any. */
  function Extend(p: Projection, m: MediaEntry, useFedora: bool, lookup: string -> LookupResponse): Projection
  {
    var t := ChooseTarget(m, p.target);
    Projection(p.records + Emit(m, t, useFedora, lookup), p.log + EntryRequests(t, useFedora), t)
  }

  /** A media list processed in order from the carried target `t0`. */
  function ProjectEntries(es: seq<MediaEntry>, t0: Option<FileRef>, useFedora: bool, lookup: string -> LookupResponse): Projection
  {
    if |es| == 0 then Projection([], [], t0)
    else Extend(ProjectEntries(es[..|es| - 1], t0, useFedora, lookup), es[|es| - 1], useFedora, lookup)
  }

  /** The node list processed in order: one media request per node, then its
      media list with the target carried over from the previous node. */
  function ProjectNodes(nodes: seq<Node>, t0: Option<FileRef>, useFedora: bool,
                        media: int -> MediaResponse, lookup: string -> LookupResponse): Projection
  {
    if |nodes| == 0 then Projection([], [], t0)
    else
      var p := ProjectNodes(nodes[..|nodes| - 1], t0, useFedora, media, lookup);
      var nid := nodes[|nodes| - 1].nid;
      var q := ProjectEntries(media(nid).entries, p.target, useFedora, lookup);
      Projection(p.records + q.records, p.log + [MediaRequest(nid)] + q.log, q.target)
  }

  /** All media entries of the nodes, node order first, then media order. */
  function MediaEntries(nodes: seq<Node>, media: int -> MediaResponse): seq<MediaEntry>
  {
    if |nodes| == 0 then []
    else MediaEntries(nodes[..|nodes| - 1], media) + media(nodes[|nodes| - 1].nid).entries
  }

  /** The inner loop of the projector: one node's media list, from the
      target file the previous entries left. Per entry, the field choice by
      overwriting, then the lookup or the literal URL. */
  method ProjectMediaList(mediaList: seq<MediaEntry>, target0: Option<FileRef>, useFedora: bool,
                          lookup: string -> LookupResponse)
    returns (records: seq<OutputRecord>, log: seq<Request>, targetFile: Option<FileRef>)
    ensures Projection(records, log, targetFile) == ProjectEntries(mediaList, target0, useFedora, lookup)
  {
    records, log, targetFile := [], [], target0;
    var j := 0;
    while j < |mediaList|
      invariant j <= |mediaList|
      invariant Projection(records, log, targetFile) == ProjectEntries(mediaList[..j], target0, useFedora, lookup)
    {
      var entry := mediaList[j];
      ghost var before := Projection(records, log, targetFile);
      if entry.image.Some? {
        targetFile := entry.image;
      }
      if entry.file.Some? {
        targetFile := entry.file;
      }
      if entry.video.Some? {
        targetFile := entry.video;
      }
      assert targetFile == ChooseTarget(entry, before.target);
      if useFedora {
        var uuid := UuidOf(targetFile);
        log := log + [LookupRequest(uuid)];
        var fedoraUrl := FedoraUrl(lookup(uuid));
        if fedoraUrl.Some? && |fedoraUrl.value| > 0 {
          records := records + [OutputRecord(fedoraUrl, entry.revised)];
        }
      } else if |UrlOf(targetFile)| > 0 {
        records := records + [OutputRecord(ImageUrl(entry), entry.revised)];
      }
      assert Projection(records, log, targetFile) == Extend(before, entry, useFedora, lookup);
      TakeSnoc(mediaList, j);
      ProjectEntriesSnoc(mediaList[..j], entry, target0, useFedora, lookup);
      j := j + 1;
    }
    TakeAll(mediaList);
  }

  /** The outer loop of the projector: a media request per node, a node with
      an empty media list skipped, the target file carried from node to node. */
  method ProjectRecords(nodes: seq<Node>, useFedora: bool, media: int -> MediaResponse, lookup: string -> LookupResponse)
    returns (records: seq<OutputRecord>, log: seq<Request>)
    ensures records == ProjectNodes(nodes, None, useFedora, media, lookup).records
    ensures log == ProjectNodes(nodes, None, useFedora, media, lookup).log
  {
    records, log := [], [];
    var targetFile: Option<FileRef> := None;
    var i := 0;
    while i < |nodes|
      invariant i <= |nodes|
      invariant ProjectNodes(nodes[..i], None, useFedora, media, lookup) == Projection(records, log, targetFile)
    {
      var nid := nodes[i].nid;
      var mediaList := media(nid).entries;
      log := log + [MediaRequest(nid)];
      TakeSnoc(nodes, i);
      ProjectNodesSnoc(nodes[..i], nodes[i], None, useFedora, media, lookup);
      if |mediaList| == 0 {
        i := i + 1;
        continue;
      }
      var entryRecords, entryLog, target := ProjectMediaList(mediaList, targetFile, useFedora, lookup);
      records, log, targetFile := records + entryRecords, log + entryLog, target;
      i := i + 1;
    }
    TakeAll(nodes);
  }

  /** One step of `ProjectEntries`: the last entry of a list. */
  lemma ProjectEntriesSnoc(es: seq<MediaEntry>, m: MediaEntry, t0: Option<FileRef>,
                           useFedora: bool, lookup: string -> LookupResponse)
    ensures ProjectEntries(es + [m], t0, useFedora, lookup) == Extend(ProjectEntries(es, t0, useFedora, lookup), m, useFedora, lookup)
  {
    SnocPrefix(es, m);
  }

  /** One step of `ProjectNodes`: the last node of a list. */
  lemma ProjectNodesSnoc(nodes: seq<Node>, n: Node, t0: Option<FileRef>, useFedora: bool,
                         media: int -> MediaResponse, lookup: string -> LookupResponse)
    ensures var p := ProjectNodes(nodes, t0, useFedora, media, lookup);
      var q := ProjectEntries(media(n.nid).entries, p.target, useFedora, lookup);
      ProjectNodes(nodes + [n], t0, useFedora, media, lookup)
        == Projection(p.records + q.records, p.log + [MediaRequest(n.nid)] + q.log, q.target)
  {
    SnocPrefix(nodes, n);
  }

  /** Processing two media lists one after the other is processing their
      concatenation: the second starts from the target the first leaves. */
  lemma {:induction false} ProjectEntriesAppend(a: seq<MediaEntry>, b: seq<MediaEntry>, t0: Option<FileRef>,
                                                useFedora: bool, lookup: string -> LookupResponse)
    ensures var pa := ProjectEntries(a, t0, useFedora, lookup);
      var pb := ProjectEntries(b, pa.target, useFedora, lookup);
      ProjectEntries(a + b, t0, useFedora, lookup) == Projection(pa.records + pb.records, pa.log + pb.log, pb.target)
    decreases |b|
  {
    if |b| == 0 {
      ConcatEmpty(a);
    } else {
      var b', m := b[..|b| - 1], b[|b| - 1];
      SplitLast(b);
      ProjectEntriesAppend(a, b', t0, useFedora, lookup);
      ProjectEntriesAppendStep(a, b', m, t0, useFedora, lookup);
    }
  }

  /** The inductive step of `ProjectEntriesAppend`: one more entry at the end. */
  lemma ProjectEntriesAppendStep(a: seq<MediaEntry>, b: seq<MediaEntry>, m: MediaEntry, t0: Option<FileRef>,
                                 useFedora: bool, lookup: string -> LookupResponse)
    requires var pa := ProjectEntries(a, t0, useFedora, lookup);
      var pb := ProjectEntries(b, pa.target, useFedora, lookup);
      ProjectEntries(a + b, t0, useFedora, lookup) == Projection(pa.records + pb.records, pa.log + pb.log, pb.target)
    ensures var pa := ProjectEntries(a, t0, useFedora, lookup);
      var pb := ProjectEntries(b + [m], pa.target, useFedora, lookup);
      ProjectEntries(a + (b + [m]), t0, useFedora, lookup) == Projection(pa.records + pb.records, pa.log + pb.log, pb.target)
  {
    var pa := ProjectEntries(a, t0, useFedora, lookup);
    ConcatSnoc(a, b, m);
    ProjectEntriesSnoc(a + b, m, t0, useFedora, lookup);
    ProjectEntriesSnoc(b, m, pa.target, useFedora, lookup);
    ExtendAfterPrefix(pa, ProjectEntries(b, pa.target, useFedora, lookup), m, useFedora, lookup);
  }

  /** Extending a joined projection extends its second part. */
  lemma ExtendAfterPrefix(pa: Projection, pb: Projection, m: MediaEntry, useFedora: bool, lookup: string -> LookupResponse)
    ensures var e := Extend(pb, m, useFedora, lookup);
      Extend(Projection(pa.records + pb.records, pa.log + pb.log, pb.target), m, useFedora, lookup)
        == Projection(pa.records + e.records, pa.log + e.log, e.target)
  {
    var t := ChooseTarget(m, pb.target);
    ConcatAssoc(pa.records, pb.records, Emit(m, t, useFedora, lookup));
    ConcatAssoc(pa.log, pb.log, EntryRequests(t, useFedora));
  }

  /** The records follow the flat list of all media entries, node order then
      media order, with the target carried across node boundaries. */
  lemma {:induction false} ProjectNodesFlattens(nodes: seq<Node>, t0: Option<FileRef>, useFedora: bool,
                                                media: int -> MediaResponse, lookup: string -> LookupResponse)
    ensures var flat := ProjectEntries(MediaEntries(nodes, media), t0, useFedora, lookup);
      var p := ProjectNodes(nodes, t0, useFedora, media, lookup);
      p.records == flat.records && p.target == flat.target
  {
    if |nodes| > 0 {
      var front := nodes[..|nodes| - 1];
      ProjectNodesFlattens(front, t0, useFedora, media, lookup);
      ProjectEntriesAppend(MediaEntries(front, media), media(nodes[|nodes| - 1].nid).entries, t0, useFedora, lookup);
    }
  }

  /** Each media entry yields at most one record. */
  lemma {:induction false} AtMostOneRecordPerEntry(es: seq<MediaEntry>, t0: Option<FileRef>,
                                                   useFedora: bool, lookup: string -> LookupResponse)
    ensures |ProjectEntries(es, t0, useFedora, lookup).records| <= |es|
  {
    if |es| > 0 {
      AtMostOneRecordPerEntry(es[..|es| - 1], t0, useFedora, lookup);
    }
  }

  /** Every record carries the revision timestamp of one of the entries; with
      Fedora URLs on its id is a non-empty resolved URL, with them off it is
      that entry's image URL. */
  lemma {:induction false} RecordsComeFromEntries(es: seq<MediaEntry>, t0: Option<FileRef>,
                                                  useFedora: bool, lookup: string -> LookupResponse)
    ensures forall r :: r in ProjectEntries(es, t0, useFedora, lookup).records ==>
      exists m :: m in es && r.lastModified == m.revised &&
        (useFedora ==> Resolved(r.resourceId)) && (!useFedora ==> r.resourceId == ImageUrl(m))
  {
    if |es| > 0 {
      var front := es[..|es| - 1];
      var m := es[|es| - 1];
      RecordsComeFromEntries(front, t0, useFedora, lookup);
      var p := ProjectEntries(front, t0, useFedora, lookup);
      var out := Emit(m, ChooseTarget(m, p.target), useFedora, lookup);
      forall r | r in ProjectEntries(es, t0, useFedora, lookup).records
        ensures exists m' :: (m' in es && r.lastModified == m'.revised &&
          (useFedora ==> Resolved(r.resourceId)) && (!useFedora ==> r.resourceId == ImageUrl(m')))
      {
        if r in p.records {
          var m' :| m' in front && r.lastModified == m'.revised &&
            (useFedora ==> Resolved(r.resourceId)) && (!useFedora ==> r.resourceId == ImageUrl(m'));
          assert m' in es;
        } else {
          assert r in out;
          assert m in es;
        }
      }
    }
  }

  /** The status code of a media response is never looked at: two media
      services that return the same lists give the same projection. */
  lemma {:induction false} MediaStatusIgnored(nodes: seq<Node>, t0: Option<FileRef>, useFedora: bool,
                                              media1: int -> MediaResponse, media2: int -> MediaResponse,
                                              lookup: string -> LookupResponse)
    requires forall nid :: media1(nid).entries == media2(nid).entries
    ensures ProjectNodes(nodes, t0, useFedora, media1, lookup) == ProjectNodes(nodes, t0, useFedora, media2, lookup)
  {
    if |nodes| > 0 {
      MediaStatusIgnored(nodes[..|nodes| - 1], t0, useFedora, media1, media2, lookup);
    }
  }

  /** A node whose media list is empty costs its media request and changes
      nothing else. */
  lemma EmptyMediaContributesNothing(nodes: seq<Node>, n: Node, t0: Option<FileRef>, useFedora: bool,
                                     media: int -> MediaResponse, lookup: string -> LookupResponse)
    requires media(n.nid).entries == []
    ensures var p := ProjectNodes(nodes, t0, useFedora, media, lookup);
      ProjectNodes(nodes + [n], t0, useFedora, media, lookup) == Projection(p.records, p.log + [MediaRequest(n.nid)], p.target)
  {
    SnocPrefix(nodes, n);
  }

  /** With Fedora URLs on, an entry whose lookup is not answered with status
      200 (a 404 among them) yields no record. */
  lemma UnresolvedLookupDropsEntry(es: seq<MediaEntry>, m: MediaEntry, t0: Option<FileRef>,
                                   lookup: string -> LookupResponse)
    requires lookup(UuidOf(ChooseTarget(m, ProjectEntries(es, t0, true, lookup).target))).status != 200
    ensures ProjectEntries(es + [m], t0, true, lookup).records == ProjectEntries(es, t0, true, lookup).records
  {
    SnocPrefix(es, m);
  }

  /** With Fedora URLs on, an entry that finds no target (none of its fields
      present and none carried from earlier entries or nodes) still costs a
      lookup, for the empty UUID, and yields a record only if that lookup
      resolves. */
  lemma UnsetTargetLooksUpEmptyUuid(es: seq<MediaEntry>, m: MediaEntry, t0: Option<FileRef>,
                                    lookup: string -> LookupResponse)
    requires ProjectEntries(es, t0, true, lookup).target.None?
    requires m.video.None? && m.file.None? && m.image.None?
    ensures ProjectEntries(es + [m], t0, true, lookup).log == ProjectEntries(es, t0, true, lookup).log + [LookupRequest("")]
    ensures ProjectEntries(es + [m], t0, true, lookup).target.None?
    ensures |ProjectEntries(es + [m], t0, true, lookup).records| == |ProjectEntries(es, t0, true, lookup).records| + 1
        <==> Resolved(FedoraUrl(lookup("")))
  {
    SnocPrefix(es, m);
  }

  /** With Fedora URLs off the record's id is the image field's URL even when
      the emptiness test was made on a file or video field that took
      precedence; an entry with no image field gets a null id. */
  lemma LiteralIdIsImageUrl(es: seq<MediaEntry>, m: MediaEntry, t0: Option<FileRef>,
                            lookup: string -> LookupResponse)
    requires |UrlOf(ChooseTarget(m, ProjectEntries(es, t0, false, lookup).target))| > 0
    ensures ProjectEntries(es + [m], t0, false, lookup).records
         == ProjectEntries(es, t0, false, lookup).records + [OutputRecord(ImageUrl(m), m.revised)]
    ensures m.image.None? ==> ProjectEntries(es + [m], t0, false, lookup).records[|ProjectEntries(es, t0, false, lookup).records|].resourceId.None?
  {
    SnocPrefix(es, m);
  }

  /** The projector only talks to the media and lookup services. */
  lemma {:induction false} ProjectEntriesLogIsLookups(es: seq<MediaEntry>, t0: Option<FileRef>,
                                                      useFedora: bool, lookup: string -> LookupResponse)
    ensures forall r :: r in ProjectEntries(es, t0, useFedora, lookup).log ==> r.LookupRequest?
  {
    if |es| > 0 {
      ProjectEntriesLogIsLookups(es[..|es| - 1], t0, useFedora, lookup);
    }
  }

  /** Every request of the projector is a media request or a lookup; without
      Fedora URLs it is one media request per node, in node order. */
  lemma {:induction false} ProjectNodesLog(nodes: seq<Node>, t0: Option<FileRef>, useFedora: bool,
                                           media: int -> MediaResponse, lookup: string -> LookupResponse)
    ensures forall r :: r in ProjectNodes(nodes, t0, useFedora, media, lookup).log ==> r.MediaRequest? || r.LookupRequest?
    ensures !useFedora ==> ProjectNodes(nodes, t0, useFedora, media, lookup).log == MediaRequests(nodes)
  {
    if |nodes| > 0 {
      var front := nodes[..|nodes| - 1];
      var p := ProjectNodes(front, t0, useFedora, media, lookup);
      ProjectNodesLog(front, t0, useFedora, media, lookup);
      ProjectEntriesLogIsLookups(media(nodes[|nodes| - 1].nid).entries, p.target, useFedora, lookup);
      if !useFedora {
        ProjectEntriesLogWithoutLookups(media(nodes[|nodes| - 1].nid).entries, p.target, lookup);
      }
    }
  }

  /** Without Fedora URLs no entry costs a request. */
  lemma {:induction false} ProjectEntriesLogWithoutLookups(es: seq<MediaEntry>, t0: Option<FileRef>,
                                                           lookup: string -> LookupResponse)
    ensures ProjectEntries(es, t0, false, lookup).log == []
  {
    if |es| > 0 {
      ProjectEntriesLogWithoutLookups(es[..|es| - 1], t0, lookup);
    }
  }

  /** One media request per node, in node order. */
  function MediaRequests(nodes: seq<Node>): (log: seq<Request>)
    ensures |log| == |nodes|
    ensures forall i :: 0 <= i < |nodes| ==> log[i] == MediaRequest(nodes[i].nid)
  {
    if |nodes| == 0 then [] else MediaRequests(nodes[..|nodes| - 1]) + [MediaRequest(nodes[|nodes| - 1].nid)]
  }
}
