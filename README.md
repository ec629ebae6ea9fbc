# Drupal multifile resource-list fetcher, modelled in Dafny

This models riprap's `PluginFetchMultifileResourceListFromDrupal` fetch plugin.
Each run of `execute` does the following:

1. Validates the run sizing: `max_resources` must be a multiple of `jsonapi_page_size`.
2. Opens the pager data file that holds the JSON:API page offset between runs.
3. Probes the Drupal collection endpoint.
4. Requests the run's pages.
5. Accumulates the nodes of the status-200 pages.
6. Fetches each node's media list, picks each media entry's target file field and resolves it to a resource id.
   - With Fedora URLs on, the id comes from the Gemini lookup.
   - With them off, the id is the image field's URL (null without one), whichever field passed the emptiness test.
7. Returns at most one `(resource_id, last_modified_timestamp)` record per media entry.

After every status-200 page, `setPageOffset` rewrites the pager file from that page's `links`.

Every HTTP response is an input value (`HarvestTypes.Remote`). These are:

- the probe response;
- the p-th page response for a given offset and limit;
- the media list of a node id;
- the Gemini answer for a file UUID.

`exit` is a result variant: `ConfigError`, `ProbeError` or `Empty`. A normal return is `Records`.

Each run also yields the sequence of requests it issues (`Request`). This is how the model states the following:

- which requests happen before an error;
- that every page is requested at the same offset;
- that exactly one page is requested after a single-page probe.

Modules, following the source's structure:

- `HarvestTypes` — the decoded values exchanged with Drupal and Gemini, and the run result.
- `Sizing` — the settings and their defaults, PHP's truncating `%` (`PhpRem`), pages per run, and the adjustment after the probe.
- `CursorStore` — the pager data file as a `class` (`CursorFile`) and how a run opens it (`OpenCursor`). It also holds the `setPageOffset` rule (`CursorAfter`).
- `Paging` — the responses to a run's page requests, the accumulated node list, and the store those responses leave.
- `Gemini` — the status-code mapping of `getFedoraUrl`.
- `Projector` — field choice, emission, and the two nested loops as methods proved against `ProjectEntries` and `ProjectNodes`.
- `Harvest` — the whole run as a function (`Run`) and the plugin object (`Harvester`). The `Harvester` methods update its fields and the cursor file. `Execute` is proved equal to `Run`.

Behaviour of the code worth noting:

- **Field precedence.** The target file field is chosen by overwriting, so video beats file, and file beats image.
- **Media status.** The status code of a media response is never checked.
- **Unwritable pager file.** Not being able to write the pager data file is not an error. The write is lost. This is PHP 7 behaviour, which the model follows: `file_put_contents` warns and returns false.
- **Page offset.** Every page of a run is requested at the offset read at its start.
- **Literal id.** With Fedora URLs off, only the chosen target's URL is tested for emptiness. The record's id is always the image field's URL, so it is null for an entry with a video or file field but no image field.
- **Unset target.** An entry with none of the three fields, and no target carried from an earlier entry or node, still gets a Gemini lookup, for the empty UUID.
- **No tag filter.** Every media entry is processed. `drupal_media_tags` is read and never used, whatever the comment on the media loop says.

## Model

| member | source | states |
|---|---|---|
| Sizing.ResolveConfig | src/Plugin/PluginFetchMultifileResourceListFromDrupal.php:46-80 | page size defaults to 50; `max_resources` defaults to the page size; `use_fedora_urls` defaults to true; a set value is used as given |
| Sizing.PhpRem | src/Plugin/PluginFetchMultifileResourceListFromDrupal.php:81 | definition of PHP's truncating `%`; its properties are in `Sizing.PhpRemZeroIffMultiple` |
| Sizing.PhpRemZeroIffMultiple | src/Plugin/PluginFetchMultifileResourceListFromDrupal.php:81 | PHP's truncating remainder is zero exactly when the Euclidean one is, for any signs |
| Sizing.PagesPerRun | src/Plugin/PluginFetchMultifileResourceListFromDrupal.php:81-101 | the sizing is rejected exactly when `max_resources` is not a multiple of the page size; an accepted sizing gives at least one page |
| Sizing.PagesCoverMaxResources | src/Plugin/PluginFetchMultifileResourceListFromDrupal.php:96-97 | when the quotient is at least 1, pages times page size is exactly `max_resources` |
| Sizing.WholePagesPerRun | src/Plugin/PluginFetchMultifileResourceListFromDrupal.php:96-97 | `max_resources` of k whole pages (k ≥ 1) gives k pages per run |
| Sizing.NonPositiveMaxGivesOnePage | src/Plugin/PluginFetchMultifileResourceListFromDrupal.php:99-100 | a zero or negative multiple of a positive page size gives one page |
| Sizing.DefaultMaxIsOnePage | src/Plugin/PluginFetchMultifileResourceListFromDrupal.php:74-101 | with `max_resources` unset the sizing is always valid and gives one page |
| Sizing.ProbedPages | src/Plugin/PluginFetchMultifileResourceListFromDrupal.php:147-151 | a probe whose links have neither `next` nor `prev` forces one page; otherwise the count is kept |
| CursorStore.CursorFile.Write | src/Plugin/PluginFetchMultifileResourceListFromDrupal.php:115 | a write replaces the stored offset, or is lost when the location is not writable |
| CursorStore.OpenCursor | src/Plugin/PluginFetchMultifileResourceListFromDrupal.php:110-116 | an existing file gives its offset and is untouched; a missing one gives 0 and is created holding 0 |
| CursorStore.ReopenStartsAtSameOffset | src/Plugin/PluginFetchMultifileResourceListFromDrupal.php:110-116 | opening is idempotent: reopening the opened store starts at the same offset and changes nothing; a writable store holds the start offset |
| CursorStore.CursorAfter | src/Plugin/PluginFetchMultifileResourceListFromDrupal.php:339-365 | the store becomes `next`'s offset if present, else `first`'s offset (cycle reset), else is unchanged; an unwritable store never changes |
| CursorStore.CursorAfterIdempotent | src/Plugin/PluginFetchMultifileResourceListFromDrupal.php:339-365 | applying the rule twice with the same links is applying it once |
| CursorStore.CursorAfterSources | src/Plugin/PluginFetchMultifileResourceListFromDrupal.php:339-365 | the new store is the old one or one of the two link offsets; the `prev` link plays no part |
| Paging.Responses | src/Plugin/PluginFetchMultifileResourceListFromDrupal.php:156-177 | a run of n pages receives exactly n responses, the k-th one to request k+1 at the same offset and limit |
| Paging.Accumulate | src/Plugin/PluginFetchMultifileResourceListFromDrupal.php:180-181 | definition; its properties are in `Paging.AccumulateAppend`, `Paging.AccumulateMembers` and `Paging.AccumulateEmptyIff` |
| Paging.CursorAfterPages | src/Plugin/PluginFetchMultifileResourceListFromDrupal.php:156-184 | definition; its properties are in `Paging.NoSuccessKeepsCursor`, `Paging.LastSuccessDecides` and `Paging.SameResponseCursor` |
| Paging.ResponsesSnoc | src/Plugin/PluginFetchMultifileResourceListFromDrupal.php:175-183 | one more request: a 200 response appends its nodes and applies the cursor rule, any other leaves both alone |
| Paging.AccumulateAppend | src/Plugin/PluginFetchMultifileResourceListFromDrupal.php:180-181 | accumulation of consecutive batches is the concatenation of their accumulations (request order) |
| Paging.AccumulateMembers | src/Plugin/PluginFetchMultifileResourceListFromDrupal.php:180-181 | a node is accumulated if and only if some status-200 response carries it |
| Paging.AccumulateEmptyIff | src/Plugin/PluginFetchMultifileResourceListFromDrupal.php:180-186 | nothing is accumulated if and only if every status-200 response has empty `data` |
| Paging.NoSuccessKeepsCursor | src/Plugin/PluginFetchMultifileResourceListFromDrupal.php:180-183 | with no status-200 response the store is as the loop found it |
| Paging.LastSuccessDecides | src/Plugin/PluginFetchMultifileResourceListFromDrupal.php:180-183 | the store after the loop is the rule applied to the last status-200 page's links over what the earlier pages left |
| Paging.UnchangedCollectionRepeatsPage | src/Plugin/PluginFetchMultifileResourceListFromDrupal.php:156-183 | because every request uses the same offset, an unchanging collection makes a run accumulate the same page n times and leaves the store as one rule application |
| Paging.UnchangedCollectionAccumulates | src/Plugin/PluginFetchMultifileResourceListFromDrupal.php:156-181 | the node half of the previous row |
| Paging.UnchangedCollectionCursor | src/Plugin/PluginFetchMultifileResourceListFromDrupal.php:156-183 | the store half of the previous row |
| Paging.SameResponseAccumulates | src/Plugin/PluginFetchMultifileResourceListFromDrupal.php:180-181 | n identical successful responses accumulate their data n times |
| Paging.SameResponseCursor | src/Plugin/PluginFetchMultifileResourceListFromDrupal.php:180-183 | n ≥ 1 identical successful responses leave the store as one rule application |
| Gemini.FedoraUrl | src/Plugin/PluginFetchMultifileResourceListFromDrupal.php:293-311 | a URL exactly on status 200, and it is the body's `fedora` field; 404 and every other status give none |
| Projector.ChooseTarget | src/Plugin/PluginFetchMultifileResourceListFromDrupal.php:232-240 | the last present of image, file, video wins; with none present the previous entry's target is kept |
| Projector.UuidOf | src/Plugin/PluginFetchMultifileResourceListFromDrupal.php:245 | definition of the UUID sent to Gemini; a target never set is PHP null, so the lookup is for the empty UUID (`Projector.UnsetTargetLooksUpEmptyUuid`); its properties are in `Projector.Emit` |
| Projector.UrlOf | src/Plugin/PluginFetchMultifileResourceListFromDrupal.php:255 | definition of the target URL tested with `strlen`, empty for a target never set; its properties are in `Projector.Emit` |
| Projector.ImageUrl | src/Plugin/PluginFetchMultifileResourceListFromDrupal.php:257 | definition of the id used with Fedora URLs off, null without an image field; its properties are in `Projector.Emit` and `Projector.LiteralIdIsImageUrl` |
| Gemini.Resolved | src/Plugin/PluginFetchMultifileResourceListFromDrupal.php:246 | definition of the `strlen` test on the lookup result, false for `false`; its properties are in `Projector.Emit` and `Projector.UnresolvedLookupDropsEntry` |
| Projector.Emit | src/Plugin/PluginFetchMultifileResourceListFromDrupal.php:241-261 | at most one record; with Fedora URLs on, one exactly when the lookup resolves to a non-empty URL, which is its id; with them off, one exactly when the target's URL is non-empty, its id the image field's URL |
| Projector.Extend | src/Plugin/PluginFetchMultifileResourceListFromDrupal.php:231-261 | definition of one media entry's step; its properties are in `Projector.ExtendAfterPrefix` and `Projector.ProjectEntriesSnoc` |
| Projector.ProjectEntries | src/Plugin/PluginFetchMultifileResourceListFromDrupal.php:227-262 | definition; its properties are in `Projector.ProjectEntriesAppend`, `Projector.AtMostOneRecordPerEntry`, `Projector.RecordsComeFromEntries` and `Projector.ProjectEntriesLogIsLookups` |
| Projector.ProjectNodes | src/Plugin/PluginFetchMultifileResourceListFromDrupal.php:199-263 | definition; its properties are in `Projector.ProjectNodesFlattens`, `Projector.MediaStatusIgnored`, `Projector.EmptyMediaContributesNothing` and `Projector.ProjectNodesLog` |
| Projector.MediaEntries | src/Plugin/PluginFetchMultifileResourceListFromDrupal.php:200-227 | definition of the flat entry list, node order then media order; its properties are in `Projector.ProjectNodesFlattens` |
| Projector.ExtendAfterPrefix | src/Plugin/PluginFetchMultifileResourceListFromDrupal.php:231-261 | one entry's step only touches what the entries after a prefix produce |
| Projector.ProjectMediaList | src/Plugin/PluginFetchMultifileResourceListFromDrupal.php:227-262 | the inner loop yields the records, requests and carried target of `ProjectEntries` |
| Projector.ProjectRecords | src/Plugin/PluginFetchMultifileResourceListFromDrupal.php:199-263 | the outer loop yields the records and requests of `ProjectNodes` |
| Projector.ProjectEntriesSnoc | src/Plugin/PluginFetchMultifileResourceListFromDrupal.php:227-262 | one more media entry extends the projection by that entry's target, record and lookup |
| Projector.ProjectNodesSnoc | src/Plugin/PluginFetchMultifileResourceListFromDrupal.php:200-263 | one more node adds its media request, then its media list from the carried target |
| Projector.ProjectEntriesAppend | src/Plugin/PluginFetchMultifileResourceListFromDrupal.php:227-262 | projecting two lists in turn is projecting their concatenation; the second starts from the target the first leaves |
| Projector.ProjectNodesFlattens | src/Plugin/PluginFetchMultifileResourceListFromDrupal.php:200-263 | the records are those of the flat list of all media entries, node order then media order, target carried across nodes |
| Projector.AtMostOneRecordPerEntry | src/Plugin/PluginFetchMultifileResourceListFromDrupal.php:241-261 | a media list yields no more records than entries |
| Projector.RecordsComeFromEntries | src/Plugin/PluginFetchMultifileResourceListFromDrupal.php:231-259 | every record has the revision timestamp of one entry; its id is a resolved non-empty URL (lookup on) or that entry's image URL (lookup off) |
| Projector.MediaStatusIgnored | src/Plugin/PluginFetchMultifileResourceListFromDrupal.php:210-224 | media responses with the same lists give the same projection whatever their status codes |
| Projector.EmptyMediaContributesNothing | src/Plugin/PluginFetchMultifileResourceListFromDrupal.php:214-224 | a node with an empty media list costs its media request and changes no record and no target |
| Projector.UnresolvedLookupDropsEntry | src/Plugin/PluginFetchMultifileResourceListFromDrupal.php:245-246 | with Fedora URLs on, an entry whose lookup is not answered 200 adds no record |
| Projector.UnsetTargetLooksUpEmptyUuid | src/Plugin/PluginFetchMultifileResourceListFromDrupal.php:232-246 | with Fedora URLs on, an entry with no field and no carried target costs a lookup for the empty UUID, keeps the target unset, and adds a record exactly when that lookup resolves |
| Projector.LiteralIdIsImageUrl | src/Plugin/PluginFetchMultifileResourceListFromDrupal.php:254-260 | with Fedora URLs off and a non-empty target URL, the record's id is the image field's URL, null when the entry has no image field |
| Projector.ProjectEntriesLogIsLookups | src/Plugin/PluginFetchMultifileResourceListFromDrupal.php:245 | the inner loop only issues lookups |
| Projector.ProjectEntriesLogWithoutLookups | src/Plugin/PluginFetchMultifileResourceListFromDrupal.php:241-261 | with Fedora URLs off the inner loop issues no request |
| Projector.ProjectNodesLog | src/Plugin/PluginFetchMultifileResourceListFromDrupal.php:200-263 | the projector issues only media and lookup requests; with Fedora URLs off exactly one media request per node, in node order |
| Harvest.Harvested | src/Plugin/PluginFetchMultifileResourceListFromDrupal.php:153-263 | definition of the run after a good probe; its properties are in `Harvest.HarvestedPageOffsets`, `Harvest.EmptyBatchIsNormalExit` and `Harvest.RecordsFollowMediaEntries` |
| Harvest.Probed | src/Plugin/PluginFetchMultifileResourceListFromDrupal.php:103-263 | definition of the run after a valid sizing; its properties are in `Harvest.ProbeFailureIsFatal` and `Harvest.PageRequestsUseStartOffset` |
| Harvest.Run | src/Plugin/PluginFetchMultifileResourceListFromDrupal.php:65-263 | definition of a whole run; its properties are in `Harvest.ConfigErrorBeforeAnyRequest`, `Harvest.ProbeFailureIsFatal`, `Harvest.PageRequestsUseStartOffset`, `Harvest.CursorFollowsLastSuccessfulPage` and `Harvest.RecordsFollowMediaEntries` |
| Harvest.ConfigErrorBeforeAnyRequest | src/Plugin/PluginFetchMultifileResourceListFromDrupal.php:81-95 | the run is a configuration error if and only if `max_resources` is not a multiple of the page size, and then issues no request and leaves the store alone |
| Harvest.ProbeFailureIsFatal | src/Plugin/PluginFetchMultifileResourceListFromDrupal.php:118-142 | with valid sizing the run fails if and only if the probe is not answered 200; then the probe is its only request and the store is as opening left it |
| Harvest.PageRequestsUseStartOffset | src/Plugin/PluginFetchMultifileResourceListFromDrupal.php:147-173 | after a good probe the page requests are exactly the probed page count, all at the start offset; exactly one without `next`/`prev` |
| Harvest.HarvestedPageOffsets | src/Plugin/PluginFetchMultifileResourceListFromDrupal.php:156-209 | after the probe, the page requests are `pages` requests at the start offset, and nothing the projector issues is a page request |
| Harvest.EmptyBatchIsNormalExit | src/Plugin/PluginFetchMultifileResourceListFromDrupal.php:180-197 | after a good probe, the run ends empty without error if and only if no status-200 page carried a node |
| Harvest.CursorFollowsLastSuccessfulPage | src/Plugin/PluginFetchMultifileResourceListFromDrupal.php:156-184 | the store the run leaves is the rule applied to the last status-200 page's links |
| Harvest.NoSuccessfulPageKeepsCursor | src/Plugin/PluginFetchMultifileResourceListFromDrupal.php:175-197 | with no status-200 page the store is as the run opened it and the run ends empty |
| Harvest.RecordsFollowMediaEntries | src/Plugin/PluginFetchMultifileResourceListFromDrupal.php:199-263 | a run's records are the projection of all media entries of the accumulated nodes, in order, from no target |
| Harvest.Harvester.SetPageOffset | src/Plugin/PluginFetchMultifileResourceListFromDrupal.php:334-366 | the pager file becomes `CursorAfter` of its old contents and the page's links |
| Harvest.Harvester.ConfigureRun | src/Plugin/PluginFetchMultifileResourceListFromDrupal.php:65-101 | the fields hold the defaulted settings; valid exactly when the sizing is accepted, and then pages per run is its value |
| Harvest.Harvester.OpenPageOffset | src/Plugin/PluginFetchMultifileResourceListFromDrupal.php:110-116 | the returned offset and the new file contents are those of `OpenCursor` |
| Harvest.Harvester.FetchPages | src/Plugin/PluginFetchMultifileResourceListFromDrupal.php:155-184 | the node list, the pager file and the requests equal `Accumulate`, `CursorAfterPages` and pages-per-run page requests at the same offset |
| Harvest.Harvester.CollectRecords | src/Plugin/PluginFetchMultifileResourceListFromDrupal.php:153-263 | result, pager file and requests are those of `Harvested` |
| Harvest.Harvester.ProbeAndCollect | src/Plugin/PluginFetchMultifileResourceListFromDrupal.php:110-263 | result, pager file and requests are those of `Probed`; pages per run drops to one after a single-page probe |
| Harvest.Harvester.Execute | src/Plugin/PluginFetchMultifileResourceListFromDrupal.php:65-272 | result, pager file and requests are those of `Run`; the fields hold the defaulted settings and the pages per run the sizing and probe give |

## Left out

- HTTP itself is not modelled: Guzzle clients, URLs, headers, authentication and query options. Each response is an input, and each request is only a `Request` in the log.
- Settings that only shape requests are not modelled: `drupal_baseurl`, `jsonapi_authorization_headers`, content types, media auth, the Gemini endpoint and its auth header. `drupal_media_tags` is read and never used, so it is not modelled either.
- JSON decoding is not modelled. Responses arrive decoded. A missing `data` or `links` member, a media list that does not decode, and a file field holding an empty array are not modelled. `Links` also makes no difference between an absent key and a key whose value is JSON `null`. The source does: `array_key_exists` in `setPageOffset` is true for `"next": null`, while `isset` in the probe check is false.
- `parse_url`, `urldecode` and `parse_str` on link hrefs are not modelled. Each link is reduced to the integer value of its `page[offset]` parameter.
- The pager file's string contents are not modelled: `trim`, `(int)` coercion and non-numeric contents. The file holds an integer or does not exist. A path that cannot be written is the `writable` flag.
- Logger calls, `ConsoleOutput` writes and process exit codes are not modelled. They never change control flow, and each `exit` is a `RunResult` variant.
- The `catch` branch of `getFedoraUrl` is not modelled. Inside `namespace App\Plugin` the unqualified `Exception` resolves to `App\Plugin\Exception`, so the branch matches nothing. A Guzzle transport exception from any probe, page, media or lookup request therefore aborts the whole run. The model gives every request a response, so it cannot show that.
- Repeated media and lookup requests within one run are assumed to get identical answers. `Remote.media` is keyed by node id only and `Remote.lookup` by file UUID only, unlike `Remote.page`, which is keyed by request number. Because every page of a run uses the same offset, nodes repeat, and their media and lookups are requested again. The model cannot express a request that fails the first time and succeeds when repeated.
- Under PHP 8, writing to an empty pager path throws a `ValueError` and ends the run. The model follows PHP 7, where the write is lost (`CursorStore.CursorFile`'s `writable` flag).
- A page size of 0 is excluded by `requires` on `Sizing.PagesPerRun`, `Harvest.Run` and `Harvest.Harvester.Execute`. PHP raises a `DivisionByZeroError` there, which is not modelled.
- The `$page_offset` parameter of `setPageOffset` is accepted by `Harvest.Harvester.SetPageOffset` and unused, as in the source.
- `Sizing.PagesPerRun` does not state the quotient in its own contract. `Sizing.PagesCoverMaxResources` and `Sizing.WholePagesPerRun` state it instead.
