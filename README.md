# distillery: AWS IP range ingestion and lookup, modelled in Dafny

distillery keeps a table of the address ranges that AWS publishes in its
`ip-ranges.json` feed and answers the question "which published ranges
contain this address?".  Two functions do the work:

- **the download handler** (`amazon/download.py`) reads the stored sync
  token from a parameter.  When the feed answers with HTTP 200 and carries a
  different token, it writes one table item per published prefix: IPv4 first,
  then IPv6.  Each item is keyed by `pk = 'IPv4#' / 'IPv6#'` and
  `sk = 'AWS#service#region#prefix'`.  It holds the block's first and last
  address as integers, the feed's `createDate` and an expiry 33 days after
  the sync time.  Only after both loops have finished does the handler store
  the new token.
- **the search handler** (`search/search.py`) first classifies the address.
  A multicast, private, unspecified, reserved, loopback or link-local
  address gets a fixed message; the handler tests these in that order.  Any
  other address leads to two scans of its family's partition.  The
  `firstip` index gives the ranges with `firstip <= v`, and the `lastip`
  index gives those with `lastip >= v`.  The handler builds the
  `sk#created` line of each entry, intersects the two sets of lines, and
  answers with the five `#`-separated fields of each remaining line.  Any
  exception makes the answer "Invalid IP Address".  The status code is
  always 200.

The project has these modules:

- `Cidr` normalises prefixes: a block `base/len` becomes its first and last
  address, and a block with host bits set is rejected.  This is section 3.1
  of RFC 4632 and section 2.3 of RFC 4291.
- `Strings` covers `str.split`, the `#` join of the key parts and `int()`.
- `Schema` holds the table, its keys, records and index projection,
  `put_item` as map update, and the sync-token parameter.  The table and
  the parameter are classes.
- `Download` holds the feed, the items, the specification function
  `Ingest` of one run, the imperative `WriteEntries` loop and `Handler`.
- `Search` holds the classification chain, the scans and the intersection.
  It has the imperative `Search` handler (as written) and `SearchAllPages`
  (every page read), each proved against a specification function.
- `Pipeline` connects the two handlers: a committed run makes each of its
  ranges findable.

## Model

| member | source | states |
|---|---|---|
| Cidr.Normalize | amazon/download.py:37-40 | strict parsing accepts exactly a length within the family width, an address of that width and no host bit set; a too-long prefix is reported as such; an accepted block starts at the given base and ends inside the address space |
| Cidr.HostBitsClearIsAligned | amazon/download.py:37 | the bit-by-bit host-bit test holds exactly when the base is a multiple of the block size |
| Cidr.NormalizeBounds | amazon/download.py:38-40 | `netrange[0]` is the network address (base with host bits cleared) and `netrange[-1]` is that plus 2^(W-N) - 1 |
| Cidr.BlockMembership | amazon/download.py:37-40 | an address lies in `[first, last]` exactly when its leading N bits equal the block's |
| Cidr.TenSlashEight | amazon/download.py:37-40 | 10.0.0.0/8 runs from 167772160 to 184549375 |
| Cidr.SlashThirtyThreeRejected | amazon/download.py:37 | an IPv4 /33 is rejected as a length out of range |
| Cidr.HostBitsRejected | amazon/download.py:37 | 10.0.0.1/8 is rejected for host bits, not rounded down |
| Strings.Split | search/search.py:67 | `split` always yields at least one piece |
| Strings.SplitJoin | search/search.py:67 | splitting a `#` join of `#`-free parts gives back exactly those parts |
| Strings.JoinSplit | search/search.py:67 | joining the pieces of a split gives back the string |
| Strings.ParseIntegerDefined | amazon/download.py:27 | `int()` succeeds exactly on an optional sign followed by one or more ASCII digits |
| Strings.ParseDecimal | amazon/download.py:27 | the decimal text of a number reads back as that number |
| Schema.PartitionKeysDiffer | amazon/download.py:35 | the IPv4 and IPv6 partitions are distinct |
| Schema.LastWith | amazon/download.py:41-51 | no item has key k exactly when there is no result; a result is the record of an item written under k |
| Schema.PutAllLookup | amazon/download.py:41-51 | after a series of `put_item`, a key holds the last record written under it, or what it held before if no item used it |
| Schema.PutAllKeepsLast | amazon/download.py:41-51 | an item that no later item overwrites is what the table holds for its key |
| Schema.PutAllAppend | amazon/download.py:31-72 | writing one list and then another is writing their concatenation |
| Schema.PutAllStep | amazon/download.py:41-51 | one more `put_item` updates exactly the item's key |
| Schema.PutAllIdempotent | amazon/download.py:41-51 | writing the same items twice leaves the table as writing them once |
| Schema.RangeTable.constructor | distillery/distillery_stack.py:18-25 | the table starts empty |
| Schema.RangeTable.PutItem | amazon/download.py:41-51 | `put_item` replaces the whole record under the item's key and nothing else |
| Schema.SyncParameter.constructor | distillery/distillery_stack.py:51-57 | the tracker parameter is deployed holding "empty" |
| Schema.SyncParameter.Get | amazon/download.py:19-20 | reading the parameter returns its value |
| Schema.SyncParameter.Put | amazon/download.py:73-76 | writing the parameter overwrites its value |
| Download.MakeItem | amazon/download.py:32-51 | an item is made exactly when the prefix parses, is of the loop's family and is a strict block; its key is `(IPv<f>#, AWS#service#region#prefix)`; it carries the entry's fields, the feed's date, the expiry and `firstip` = base <= `lastip` < 2^W |
| Download.ItemCoversBlock | amazon/download.py:37-40 | a stored item covers exactly the addresses with the block's network number |
| Download.Build | amazon/download.py:31-51 | a loop writes at most one item per entry; it completes exactly when every entry is valid |
| Download.BuildSteps | amazon/download.py:31-51 | item i is the one entry i makes, and the error raised is the first invalid entry's |
| Download.BuildAt | amazon/download.py:31-51 | at position i the loop either writes entry i's item or raises entry i's error |
| Download.BuildKeys | amazon/download.py:32-35 | item i is stored under entry i's key |
| Download.FeedItems | amazon/download.py:31-72 | both loops complete exactly when every IPv4 and every IPv6 entry is valid |
| Download.FeedItemsKeys | amazon/download.py:31-72 | a valid feed gives one item per entry, IPv4 items first, each under its entry's key |
| Download.FeedItemAt | amazon/download.py:31-72 | entry i of a family is the item at that family's offset plus i |
| Download.FeedItemsCreated | amazon/download.py:47-48 | every item of a run carries the feed's `createDate` and the same expiry |
| Download.FeedItemsAvoid | amazon/download.py:31-72 | no item is written under a key that no feed entry produces |
| Download.Ingest | amazon/download.py:25-78 | a non-200 fetch or an unchanged token leaves table and token unchanged; a raised run keeps the old token; the token ends as the old one or the feed's; a run that returns returns 200 |
| Download.IngestIsApply | amazon/download.py:25-29 | on a new feed with a numeric token, a run is the write phase with expiry = token + 33 days |
| Download.CheckpointAdvancesOnlyOnFullWrite | amazon/download.py:29-76 | the token changes exactly when the fetch succeeded, the token is numeric and new, and every entry of both lists was valid; it then holds the feed's token |
| Download.IngestTouchesOnlyFeedKeys | amazon/download.py:41-72 | a run leaves every key that no feed entry produces as it was |
| Download.IngestStoredDates | amazon/download.py:41-72 | after a run each item is either untouched or carries the feed's `createDate` |
| Download.FeedItemsStoreEntry | amazon/download.py:41-72 | after the write phase of a valid feed, each entry's record is stored under its key unless a later entry has the same key |
| Download.CommittedRunStoresEntry | amazon/download.py:29-76 | after a run that stores the new token, every feed entry is in the table under its key; where a key repeats, the later entry wins |
| Download.IngestIdempotent | amazon/download.py:25-78 | running the handler again on the same feed changes neither table, token nor outcome |
| Download.FirstRunIngests | distillery/distillery_stack.py:55 | the deployed "empty" token is never a feed token, so the first run over a valid feed stores the feed's token |
| Download.WriteEntries | amazon/download.py:31-51 | the loop leaves the table as the items made for the valid entries written in order, and reports the first entry's error |
| Download.Handler | amazon/download.py:12-82 | the handler's table, token and outcome are those `Ingest` gives for the old table and token |
| Search.Classify | search/search.py:18-29 | the class reported is one that holds, and no class earlier in the chain holds; when none is reported, no class holds |
| Search.Enumerate | search/search.py:36-39 | enumerating a set of keys yields each key's index entry exactly once |
| Search.ReadIndex | search/search.py:36-39 | a scan returns the index entries of exactly the keys of the partition that satisfy the key condition, each once |
| Search.LinesOf | search/search.py:46-47 | line i is `sk + '#' + created` of entry i |
| Search.LinesOfScan | search/search.py:46-47 | the scan's lines, as a set, are the line set of the scan's keys |
| Search.Summaries | search/search.py:63-69 | the body is the "Invalid IP Address" message exactly when some line of the intersection has fewer than five fields; otherwise it lists each line exactly once with its first five fields |
| Search.Search | search/search.py:14-123 | status 200; a body that renders `Answer`: the message for a bad address or a special class, "Invalid IP Address" when a scan has more than one page, and the summaries of the intersection otherwise |
| Search.ReadAllPages | search/search.py:39-45 | continuing from each page's end and concatenating the pages reads the whole scan |
| Search.SearchAllPages | search/search.py:31-113 | status 200 and a body that renders `AnswerAllPages`, whatever the page size |
| Search.LineInjective | search/search.py:47 | a line determines its sort key and its date when the date has no `#` |
| Search.CandidatesAreContaining | search/search.py:36-63 | with `#`-free dates, the intersection is exactly the lines of the partition's ranges with `firstip <= v <= lastip` |
| Search.SummarizeJoin | search/search.py:66-68 | a line of `#`-free fields yields its first five fields, and is rejected when it has fewer |
| Search.SummarizeFields | search/search.py:66-68 | a five-field line reads back as those five fields |
| Search.AnswerIsPartitionLocal | search/search.py:37 | the answer depends only on the items of the address's own partition |
| Search.PagingDiscardsMatches | search/search.py:40-45 | as written, more containing ranges than a page holds give "Invalid IP Address"; when both scans fit in a page the answer is the all-pages one |
| Search.TwoRangesOnePage | search/search.py:40-45 | two ranges containing 10.0.0.1, one entry per page: the as-written answer is "Invalid IP Address" |
| Search.TwoRangesAllPages | search/search.py:63-69 | the same table read over all pages lists both ranges |
| Pipeline.StoredLineSummary | search/search.py:66-68 | the line of a stored entry with `#`-free fields reads back as cloud, service, region, prefix and date |
| Pipeline.IngestKeepsDatesPlain | amazon/download.py:47-48 | a run keeps every stored date `#`-free when the feed's date is |
| Pipeline.IngestedRangeIsFound | search/search.py:33-63 | after a committed run, any address of an entry's block finds the entry's line among the candidates, and the all-pages answer lists it whenever it lists anything |

## Left out

- The HTTP fetch, boto3's DynamoDB and SSM clients, logging and `json.dumps`.  The feed is a decoded record with its status code.  The table is a map in a class.  The parameter is a string field.  The response body is the value before JSON encoding.
- Address parsing and the `is_*` tables of the address library.  A query is either malformed or a family, an integer value and six class flags; the entries of the feed carry what the library parses from their prefix text.
- `int()` on text with surrounding whitespace or `_` digit separators, which Python also accepts.  The model accepts only an optional sign and ASCII digits.
- `datetime.fromtimestamp`, its range limits and the local time zone.  The expiry is the integer token plus 33 days in seconds.
- Items expiring through the table's time-to-live attribute; DynamoDB does that, not the handlers.
- Missing keys in the feed's JSON (`KeyError`) and failures of `put_item` or `put_parameter`.  A run that raises for these would keep the items already written and the old token, as a rejected prefix does.
- DynamoDB paging works by a 1 MB response size, and `LastEvaluatedKey` can also appear on a page that happens to end exactly at the last item.  The model uses a page capacity counted in items, with a next page exactly when items remain.  The order in which an index returns items is left to the store.
- Concurrent runs of the download handler.
- The CDK stack (`distillery/distillery_stack.py`, `app.py`): the model uses only its table schema and the initial "empty" token.
- Where the code and the design description disagree, the model follows the code.  In the download handler, a prefix that fails strict parsing aborts the run, but the items written before it stay in the table (only the token is held back).  A non-200 fetch returns normally with status 200 instead of surfacing an error.
- In the search handler, every exception, whatever its cause, becomes "Invalid IP Address", as in the code.  The design's separate store and fetch errors are not modelled.

## Findings

| source | as written | input that shows it | evidently intended | confidence | as-written member | corrected member |
|---|---|---|---|---|---|---|
| search/search.py:40-45 (and 54-59, 82-87, 96-101) | when a scan's response carries `LastEvaluatedKey`, the next page is fetched and `firstdata.update(...)` is called on the list of items, which raises `AttributeError`; the bare `except` turns every such query into "Invalid IP Address" | two ranges containing 10.0.0.1 and a page that holds one entry (`Search.TwoRangesOnePage`) | add each page's items to the list (`extend`) and answer from the whole scan | high, not executed | Search.Search, Search.Answer, Search.PagingDiscardsMatches, Search.TwoRangesOnePage | Search.SearchAllPages, Search.AnswerAllPages, Search.ReadAllPages, Search.TwoRangesAllPages |
