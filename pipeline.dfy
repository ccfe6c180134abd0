/**
 * The two handlers together: a range that a committed ingestion run stores
 * is found by the containment query for every address of its block.
 */
module Pipeline {
  import opened Wrappers
  import opened Cidr
  import opened Schema
  import opened Strings
  import Download
  import Search

  /** The line the query builds for a stored entry: its sort key and its date. */
  function StoredLine(e: Download.FeedEntry, date: string): string
  {
    Download.SortKey(e) + "#" + date
  }

  /** The line of an entry whose fields hold no `#` reads back as the entry's
      cloud, service, region, prefix and date. */
  lemma StoredLineSummary(e: Download.FeedEntry, date: string)
    requires '#' !in e.service && '#' !in e.region && '#' !in e.prefix && '#' !in date
    ensures Search.Summarize(StoredLine(e, date)) ==
            Some(Search.Summary(Download.Cloud, e.service, e.region, e.prefix, date))
  {
    Search.SummarizeFields(Download.Cloud, e.service, e.region, e.prefix, date);
  }

  /** A run keeps every stored date free of `#` when the feed's date is. */
  lemma IngestKeepsDatesPlain(t: Table, cp: string, feed: Download.Feed)
    requires forall k :: k in t ==> '#' !in t[k].created
    requires '#' !in feed.createDate
    ensures var r := Download.Ingest(t, cp, feed);
            forall k :: k in r.table ==> '#' !in r.table[k].created
  {
    var r := Download.Ingest(t, cp, feed);
    forall k | k in r.table
      ensures '#' !in r.table[k].created
    {
      Download.IngestStoredDates(t, cp, feed, k);
    }
  }

  /** After a run that stores the new token, an address inside the block of
      entry `i` finds that entry's line among the candidates of both index
      scans, and the all-pages handler lists it whenever it lists anything. */
  lemma IngestedRangeIsFound(t: Table, cp: string, feed: Download.Feed, f: Family, i: nat, v: nat)
    requires feed.statusCode == 200 && ParseInteger(feed.syncToken).Some? && cp != feed.syncToken
    requires Download.AllValid(V4, feed.prefixes) && Download.AllValid(V6, feed.ipv6Prefixes)
    requires i < |Download.Entries(feed, f)|
    requires forall j :: i < j < |Download.Entries(feed, f)| ==>
               Download.EntryKey(f, Download.Entries(feed, f)[j]) != Download.EntryKey(f, Download.Entries(feed, f)[i])
    requires forall k :: k in t ==> '#' !in t[k].created
    requires '#' !in feed.createDate
    requires var e := Download.Entries(feed, f)[i];
             && Download.EntryValid(f, e)
             && NetworkNumber(f, v, e.parsed.len) == NetworkNumber(f, e.parsed.base, e.parsed.len)
    ensures var r := Download.Ingest(t, cp, feed);
            var line := StoredLine(Download.Entries(feed, f)[i], feed.createDate);
            && line in Search.Candidates(r.table, PartitionKey(f), v)
            && forall c :: Search.Classify(c).None? && Search.AnswerAllPages(r.table, Search.Ip(f, v, c)).List? ==>
                 line in Search.AnswerAllPages(r.table, Search.Ip(f, v, c)).lines
  {
    var r := Download.Ingest(t, cp, feed);
    var e := Download.Entries(feed, f)[i];
    var ttl := ParseInteger(feed.syncToken).value + Download.RetentionSeconds;
    var k := Download.EntryKey(f, e);
    Download.CommittedRunStoresEntry(t, cp, feed, f, i);
    Download.ItemCoversBlock(f, e, feed.createDate, ttl, v);
    assert k in r.table && r.table[k] == Download.MakeItem(f, e, feed.createDate, ttl).value.record;
    assert k in Search.Containing(r.table, PartitionKey(f), v);
    IngestKeepsDatesPlain(t, cp, feed);
    Search.CandidatesAreContaining(r.table, PartitionKey(f), v);
    assert Search.Line(Search.Project(r.table, k)) == StoredLine(e, feed.createDate);
  }
}
