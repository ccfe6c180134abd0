/**
 * The range-ingestion handler.  It reads the stored sync token, fetches the
 * published feed, and when the feed's token differs from the stored one
 * writes one item per published prefix (IPv4 prefixes first, then IPv6) and
 * only then stores the new token.  A prefix that strict parsing rejects
 * aborts the run: the items written before it stay, the token is not stored.
 */
module Download {
  import opened Wrappers
  import opened Cidr
  import opened Schema
  import opened Strings

  /** What the address library reads from an entry's prefix text. */
  datatype ParsedPrefix = Unparsable | Parsed(family: Family, base: nat, len: nat)

  /** One entry of `prefixes` or `ipv6_prefixes` in the published feed. */
  datatype FeedEntry = FeedEntry(prefix: string, parsed: ParsedPrefix, service: string,
                                 region: string, borderGroup: string)

  /** The fetched feed: the HTTP status and the decoded document. */
  datatype Feed = Feed(statusCode: int, syncToken: string, createDate: string,
                       prefixes: seq<FeedEntry>, ipv6Prefixes: seq<FeedEntry>)

  datatype IngestError =
    | SyncTokenNotInteger
    | PrefixUnparsable(prefix: string)
    | WrongFamily(prefix: string)
    | BlockRejected(prefix: string, reason: CidrError)

  /** How a run ends: the handler's return value, or the exception it raises. */
  datatype Outcome = Returned(statusCode: int, body: string) | Raised(error: IngestError)

  const Completed: Outcome := Returned(200, "aws-ip-ranges-download")

  /** Items expire 33 days after the feed's sync time. */
  const RetentionSeconds: int := 33 * 86400

  const Cloud: string := "AWS"

  /** `'AWS#' + service + '#' + region + '#' + prefix`. */
  function SortKey(e: FeedEntry): string
  {
    Cloud + "#" + e.service + "#" + e.region + "#" + e.prefix
  }

  function EntryKey(f: Family, e: FeedEntry): Key
  {
    Key(PartitionKey(f), SortKey(e))
  }

  /** The entry parses, is of family `f`, and is a strict block. */
  predicate EntryValid(f: Family, e: FeedEntry)
  {
    e.parsed.Parsed? && e.parsed.family == f && IsStrictBlock(f, e.parsed.base, e.parsed.len)
  }

  predicate AllValid(f: Family, es: seq<FeedEntry>)
  {
    forall i :: 0 <= i < |es| ==> EntryValid(f, es[i])
  }

  /** The item one loop iteration writes for entry `e` of family `f`. */
  function MakeItem(f: Family, e: FeedEntry, created: string, ttl: int): (r: Result<Item, IngestError>)
    ensures r.Success? <==> EntryValid(f, e)
    ensures r.Success? ==> r.value.key == EntryKey(f, e)
    ensures r.Success? ==>
              var rec := r.value.record;
              && rec.created == created && rec.token == ttl
              && rec.cidr == e.prefix && rec.service == e.service
              && rec.region == e.region && rec.edge == e.borderGroup
              && rec.firstip == e.parsed.base
              && rec.firstip <= rec.lastip < Pow2(Width(f))
  {
    match e.parsed
    case Unparsable => Failure(PrefixUnparsable(e.prefix))
    case Parsed(family, base, len) =>
      if family != f then Failure(WrongFamily(e.prefix))
      else
        match Normalize(f, base, len)
        case Failure(reason) => Failure(BlockRejected(e.prefix, reason))
        case Success(b) =>
          Success(Item(EntryKey(f, e),
                       Record(e.service, e.region, e.prefix, e.borderGroup, ttl, created, b.first, b.last)))
  }

  /** A stored item covers exactly the addresses that share its block's network number. */
  lemma ItemCoversBlock(f: Family, e: FeedEntry, created: string, ttl: int, v: nat)
    requires EntryValid(f, e)
    ensures var rec := MakeItem(f, e, created, ttl).value.record;
            rec.firstip <= v <= rec.lastip <==>
            NetworkNumber(f, v, e.parsed.len) == NetworkNumber(f, e.parsed.base, e.parsed.len)
  {
    BlockMembership(f, e.parsed.base, e.parsed.len, v);
  }

  /** Items built from a list of entries, up to the first that fails. */
  datatype Built = Built(items: seq<Item>, failure: Option<IngestError>)

  /** One loop: the items for the longest valid prefix of `es`, and the error
      of the first invalid entry if there is one. */
  function Build(f: Family, es: seq<FeedEntry>, created: string, ttl: int): (b: Built)
    ensures |b.items| <= |es|
    ensures b.failure.None? <==> |b.items| == |es|
    ensures b.failure.None? <==> AllValid(f, es)
  {
    if es == [] then Built([], None)
    else
      match MakeItem(f, es[0], created, ttl)
      case Failure(err) => Built([], Some(err))
      case Success(item) =>
        var rest := Build(f, es[1..], created, ttl);
        assert forall i :: 0 < i < |es| ==> es[1..][i - 1] == es[i];
        Built([item] + rest.items, rest.failure)
  }

  /** Item `i` is the one entry `i` makes, and the error is the one the
      first entry without an item raises. */
  lemma {:induction false} BuildSteps(f: Family, es: seq<FeedEntry>, created: string, ttl: int)
    ensures var b := Build(f, es, created, ttl);
            forall i :: 0 <= i < |b.items| ==> MakeItem(f, es[i], created, ttl) == Success(b.items[i])
    ensures var b := Build(f, es, created, ttl);
            b.failure.Some? ==> MakeItem(f, es[|b.items|], created, ttl) == Failure(b.failure.value)
  {
    if es != [] && MakeItem(f, es[0], created, ttl).Success? {
      BuildSteps(f, es[1..], created, ttl);
      var b := Build(f, es, created, ttl);
      var rest := Build(f, es[1..], created, ttl);
      assert b.items == [MakeItem(f, es[0], created, ttl).value] + rest.items;
      forall i | 0 < i < |b.items|
        ensures MakeItem(f, es[i], created, ttl) == Success(b.items[i])
      {
        assert es[1..][i - 1] == es[i];
      }
      if b.failure.Some? {
        assert es[1..][|rest.items|] == es[|b.items|];
      }
    }
  }

  /** What one iteration of the loop over `es` finds at position `i`. */
  lemma BuildAt(f: Family, es: seq<FeedEntry>, created: string, ttl: int, i: nat)
    requires i < |es|
    ensures var b := Build(f, es, created, ttl);
            && (i < |b.items| ==> MakeItem(f, es[i], created, ttl) == Success(b.items[i]))
            && (i == |b.items| ==> b.failure.Some? && MakeItem(f, es[i], created, ttl) == Failure(b.failure.value))
  {
    BuildSteps(f, es, created, ttl);
  }

  /** Item `i` is stored under the key of entry `i`. */
  lemma BuildKeys(f: Family, es: seq<FeedEntry>, created: string, ttl: int)
    ensures var b := Build(f, es, created, ttl);
            forall i :: 0 <= i < |b.items| ==> b.items[i].key == EntryKey(f, es[i])
  {
    BuildSteps(f, es, created, ttl);
  }

  /** Both loops: the IPv4 items, then (if those all succeed) the IPv6 items. */
  function FeedItems(feed: Feed, ttl: int): (b: Built)
    ensures b.failure.None? <==> AllValid(V4, feed.prefixes) && AllValid(V6, feed.ipv6Prefixes)
  {
    var b4 := Build(V4, feed.prefixes, feed.createDate, ttl);
    if b4.failure.Some? then b4
    else
      var b6 := Build(V6, feed.ipv6Prefixes, feed.createDate, ttl);
      Built(b4.items + b6.items, b6.failure)
  }

  /** The state a run leaves behind and how it ends. */
  datatype Run = Run(table: Table, checkpoint: string, outcome: Outcome)

  /** One run of the handler against table `t` and stored token `cp`. */
  function Ingest(t: Table, cp: string, feed: Feed): (r: Run)
    ensures feed.statusCode != 200 || cp == feed.syncToken ==> r.table == t && r.checkpoint == cp
    ensures r.outcome.Raised? ==> r.checkpoint == cp
    ensures r.outcome.Returned? ==> r.outcome == Completed
    ensures r.checkpoint == cp || r.checkpoint == feed.syncToken
  {
    if feed.statusCode != 200 then Run(t, cp, Completed)
    else
      match ParseInteger(feed.syncToken)
      case None => Run(t, cp, Raised(SyncTokenNotInteger))
      case Some(seconds) =>
        if cp == feed.syncToken then Run(t, cp, Completed)
        else Apply(t, cp, feed, seconds + RetentionSeconds)
  }

  /** The write phase of a run over a new feed, then the token commit. */
  function Apply(t: Table, cp: string, feed: Feed, ttl: int): Run
  {
    var w := FeedItems(feed, ttl);
    if w.failure.None? then Run(PutAll(t, w.items), feed.syncToken, Completed)
    else Run(PutAll(t, w.items), cp, Raised(w.failure.value))
  }

  /** The token advances exactly when the feed is new and every entry of both
      lists was written; it then holds the feed's token. */
  lemma CheckpointAdvancesOnlyOnFullWrite(t: Table, cp: string, feed: Feed)
    ensures var r := Ingest(t, cp, feed);
            r.checkpoint != cp <==>
              && feed.statusCode == 200 && ParseInteger(feed.syncToken).Some?
              && cp != feed.syncToken
              && AllValid(V4, feed.prefixes) && AllValid(V6, feed.ipv6Prefixes)
    ensures var r := Ingest(t, cp, feed);
            r.checkpoint != cp ==> r.checkpoint == feed.syncToken && r.outcome == Completed
  {
    if feed.statusCode == 200 && ParseInteger(feed.syncToken).Some? && cp != feed.syncToken {
      var ttl := ParseInteger(feed.syncToken).value + RetentionSeconds;
      IngestIsApply(t, cp, feed, ttl);
    }
  }

  /** The entries of one family's list in the feed. */
  function Entries(feed: Feed, f: Family): seq<FeedEntry>
  {
    match f
    case V4 => feed.prefixes
    case V6 => feed.ipv6Prefixes
  }

  /** A key that no entry of either list produces. */
  predicate NotInFeed(feed: Feed, k: Key)
  {
    && (forall i :: 0 <= i < |feed.prefixes| ==> EntryKey(V4, feed.prefixes[i]) != k)
    && (forall i :: 0 <= i < |feed.ipv6Prefixes| ==> EntryKey(V6, feed.ipv6Prefixes[i]) != k)
  }

  lemma FeedItemsAvoid(feed: Feed, ttl: int, k: Key)
    requires NotInFeed(feed, k)
    ensures LastWith(FeedItems(feed, ttl).items, k).None?
  {
    var b4 := Build(V4, feed.prefixes, feed.createDate, ttl);
    var b6 := Build(V6, feed.ipv6Prefixes, feed.createDate, ttl);
    var items := FeedItems(feed, ttl).items;
    BuildKeys(V4, feed.prefixes, feed.createDate, ttl);
    BuildKeys(V6, feed.ipv6Prefixes, feed.createDate, ttl);
    forall i | 0 <= i < |items|
      ensures items[i].key != k
    {
      if i < |b4.items| {
        assert items[i] == b4.items[i];
        assert items[i].key == EntryKey(V4, feed.prefixes[i]);
      } else {
        assert items[i] == b6.items[i - |b4.items|];
        assert items[i].key == EntryKey(V6, feed.ipv6Prefixes[i - |b4.items|]);
      }
    }
  }

  /** Every item a run writes carries the feed's creation date and the
      run's expiry. */
  lemma FeedItemsCreated(feed: Feed, ttl: int)
    ensures var items := FeedItems(feed, ttl).items;
            forall i :: 0 <= i < |items| ==>
              items[i].record.created == feed.createDate && items[i].record.token == ttl
  {
    var b4 := Build(V4, feed.prefixes, feed.createDate, ttl);
    var b6 := Build(V6, feed.ipv6Prefixes, feed.createDate, ttl);
    BuildSteps(V4, feed.prefixes, feed.createDate, ttl);
    BuildSteps(V6, feed.ipv6Prefixes, feed.createDate, ttl);
    var items := FeedItems(feed, ttl).items;
    forall i | 0 <= i < |items|
      ensures items[i].record.created == feed.createDate && items[i].record.token == ttl
    {
      if i < |b4.items| {
        assert items[i] == b4.items[i];
      } else {
        assert items[i] == b6.items[i - |b4.items|];
      }
    }
  }

  /** After a run, each stored item is either untouched or was written with
      the feed's creation date. */
  lemma IngestStoredDates(t: Table, cp: string, feed: Feed, k: Key)
    requires k in Ingest(t, cp, feed).table
    ensures var r := Ingest(t, cp, feed);
            (k in t && r.table[k] == t[k]) || r.table[k].created == feed.createDate
  {
    if feed.statusCode == 200 && ParseInteger(feed.syncToken).Some? && cp != feed.syncToken {
      var ttl := ParseInteger(feed.syncToken).value + RetentionSeconds;
      var items := FeedItems(feed, ttl).items;
      IngestIsApply(t, cp, feed, ttl);
      PutAllLookup(t, items, k);
      FeedItemsCreated(feed, ttl);
    }
  }

  /** A run changes only the keys of the feed's own entries. */
  lemma IngestTouchesOnlyFeedKeys(t: Table, cp: string, feed: Feed, k: Key)
    requires NotInFeed(feed, k)
    ensures Lookup(Ingest(t, cp, feed).table, k) == Lookup(t, k)
  {
    if feed.statusCode == 200 && ParseInteger(feed.syncToken).Some? && cp != feed.syncToken {
      var ttl := ParseInteger(feed.syncToken).value + RetentionSeconds;
      var items := FeedItems(feed, ttl).items;
      IngestIsApply(t, cp, feed, ttl);
      FeedItemsAvoid(feed, ttl, k);
      PutAllLookup(t, items, k);
    }
  }

  /** On the non-trivial path, a run is the write phase with the expiry
      derived from the feed's token. */
  lemma IngestIsApply(t: Table, cp: string, feed: Feed, ttl: int)
    requires feed.statusCode == 200 && cp != feed.syncToken
    requires ParseInteger(feed.syncToken).Some?
    requires ttl == ParseInteger(feed.syncToken).value + RetentionSeconds
    ensures Ingest(t, cp, feed).table == Apply(t, cp, feed, ttl).table
    ensures Ingest(t, cp, feed).checkpoint == Apply(t, cp, feed, ttl).checkpoint
    ensures Ingest(t, cp, feed).outcome == Apply(t, cp, feed, ttl).outcome
  {
  }

  /** Where a family's items start in the combined item list. */
  function Offset(feed: Feed, f: Family): nat
  {
    match f
    case V4 => 0
    case V6 => |feed.prefixes|
  }

  /** A fully valid feed yields one item per entry, IPv4 entries first, each
      under its entry's key. */
  lemma FeedItemsKeys(feed: Feed, ttl: int)
    requires AllValid(V4, feed.prefixes) && AllValid(V6, feed.ipv6Prefixes)
    ensures var items := FeedItems(feed, ttl).items;
            && |items| == |feed.prefixes| + |feed.ipv6Prefixes|
            && (forall j :: 0 <= j < |feed.prefixes| ==> items[j].key == EntryKey(V4, feed.prefixes[j]))
            && (forall j :: |feed.prefixes| <= j < |items| ==>
                  items[j].key == EntryKey(V6, feed.ipv6Prefixes[j - |feed.prefixes|]))
  {
    var b4 := Build(V4, feed.prefixes, feed.createDate, ttl);
    var b6 := Build(V6, feed.ipv6Prefixes, feed.createDate, ttl);
    assert FeedItems(feed, ttl).items == b4.items + b6.items;
    BuildKeys(V4, feed.prefixes, feed.createDate, ttl);
    BuildKeys(V6, feed.ipv6Prefixes, feed.createDate, ttl);
  }

  /** In a fully valid feed, entry `i` of family `f` is the item at
      `Offset(feed, f) + i`. */
  lemma FeedItemAt(feed: Feed, ttl: int, f: Family, i: nat)
    requires AllValid(V4, feed.prefixes) && AllValid(V6, feed.ipv6Prefixes)
    requires i < |Entries(feed, f)|
    ensures var items := FeedItems(feed, ttl).items;
            && Offset(feed, f) + i < |items|
            && MakeItem(f, Entries(feed, f)[i], feed.createDate, ttl) == Success(items[Offset(feed, f) + i])
  {
    var b4 := Build(V4, feed.prefixes, feed.createDate, ttl);
    var b6 := Build(V6, feed.ipv6Prefixes, feed.createDate, ttl);
    assert FeedItems(feed, ttl).items == b4.items + b6.items;
    BuildAt(f, Entries(feed, f), feed.createDate, ttl, i);
  }

  /** Writing a fully valid feed leaves each entry's item under its key,
      unless a later entry of the same family has the same key. */
  lemma FeedItemsStoreEntry(t: Table, feed: Feed, ttl: int, f: Family, i: nat)
    requires AllValid(V4, feed.prefixes) && AllValid(V6, feed.ipv6Prefixes)
    requires i < |Entries(feed, f)|
    requires forall j :: i < j < |Entries(feed, f)| ==> EntryKey(f, Entries(feed, f)[j]) != EntryKey(f, Entries(feed, f)[i])
    ensures var e := Entries(feed, f)[i];
            && EntryValid(f, e)
            && Lookup(PutAll(t, FeedItems(feed, ttl).items), EntryKey(f, e)) == Some(MakeItem(f, e, feed.createDate, ttl).value.record)
  {
    var items := FeedItems(feed, ttl).items;
    var es := Entries(feed, f);
    var k := EntryKey(f, es[i]);
    var idx := Offset(feed, f) + i;
    FeedItemsKeys(feed, ttl);
    FeedItemAt(feed, ttl, f, i);
    PartitionKeysDiffer();
    forall j | idx < j < |items|
      ensures items[j].key != k
    {
      if j >= |feed.prefixes| {
        assert items[j].key == EntryKey(V6, feed.ipv6Prefixes[j - |feed.prefixes|]);
      }
    }
    PutAllKeepsLast(t, items, idx);
  }

  /** After a run that stores the new token, every entry of the feed is in the
      table, under its key, with this run's creation date and expiry; where a
      key repeats, the later entry is the one stored. */
  lemma CommittedRunStoresEntry(t: Table, cp: string, feed: Feed, f: Family, i: nat)
    requires feed.statusCode == 200 && ParseInteger(feed.syncToken).Some? && cp != feed.syncToken
    requires AllValid(V4, feed.prefixes) && AllValid(V6, feed.ipv6Prefixes)
    requires i < |Entries(feed, f)|
    requires forall j :: i < j < |Entries(feed, f)| ==> EntryKey(f, Entries(feed, f)[j]) != EntryKey(f, Entries(feed, f)[i])
    ensures var ttl := ParseInteger(feed.syncToken).value + RetentionSeconds;
            var e := Entries(feed, f)[i];
            && EntryValid(f, e)
            && Ingest(t, cp, feed).checkpoint == feed.syncToken
            && Lookup(Ingest(t, cp, feed).table, EntryKey(f, e)) == Some(MakeItem(f, e, feed.createDate, ttl).value.record)
  {
    var ttl := ParseInteger(feed.syncToken).value + RetentionSeconds;
    IngestIsApply(t, cp, feed, ttl);
    FeedItemsStoreEntry(t, feed, ttl, f, i);
  }

  /** Running the handler a second time on the same feed changes nothing:
      a completed run made the tokens equal, and an aborted one rewrites the
      same items and aborts again. */
  lemma IngestIdempotent(t: Table, cp: string, feed: Feed)
    ensures var r := Ingest(t, cp, feed);
            Ingest(r.table, r.checkpoint, feed) == r
  {
    if feed.statusCode == 200 && ParseInteger(feed.syncToken).Some? && cp != feed.syncToken {
      var ttl := ParseInteger(feed.syncToken).value + RetentionSeconds;
      var w := FeedItems(feed, ttl);
      PutAllIdempotent(t, w.items);
      var r := Ingest(t, cp, feed);
      IngestIsApply(t, cp, feed, ttl);
      if w.failure.Some? {
        IngestIsApply(r.table, cp, feed, ttl);
        assert r == Run(PutAll(t, w.items), cp, Raised(w.failure.value));
      } else {
        assert r == Run(PutAll(t, w.items), feed.syncToken, Completed);
      }
    }
  }

  /** The stored "empty" token is no sync time, so the first run after
      deployment ingests every valid feed. */
  lemma FirstRunIngests(t: Table, feed: Feed)
    requires feed.statusCode == 200 && ParseInteger(feed.syncToken).Some?
    requires AllValid(V4, feed.prefixes) && AllValid(V6, feed.ipv6Prefixes)
    ensures Ingest(t, InitialCheckpoint, feed).checkpoint == feed.syncToken
  {
    assert !IsDigit(InitialCheckpoint[0]);
    assert ParseInteger(InitialCheckpoint).None?;
  }

  /** One of the handler's loops: `put_item` for each entry in order, raising
      at the first entry that does not make an item. */
  method WriteEntries(table: RangeTable, f: Family, es: seq<FeedEntry>, created: string, ttl: int)
    returns (failure: Option<IngestError>)
    modifies table
    ensures var b := Build(f, es, created, ttl);
            table.items == PutAll(old(table.items), b.items) && failure == b.failure
  {
    ghost var b := Build(f, es, created, ttl);
    for i := 0 to |es|
      invariant i <= |b.items|
      invariant table.items == PutAll(old(table.items), b.items[..i])
    {
      BuildAt(f, es, created, ttl, i);
      var made := MakeItem(f, es[i], created, ttl);
      if made.Failure? {
        assert b.items[..i] == b.items;
        return Some(made.error);
      }
      PutAllStep(old(table.items), b.items, i);
      table.PutItem(made.value);
    }
    assert b.items[..|es|] == b.items;
    return None;
  }

  /** The handler: the table and the token end as `Ingest` says. */
  method Handler(table: RangeTable, param: SyncParameter, feed: Feed) returns (outcome: Outcome)
    modifies table, param
    ensures Ingest(old(table.items), old(param.value), feed) == Run(table.items, param.value, outcome)
  {
    var prevToken := param.Get();
    if feed.statusCode != 200 {
      return Completed;
    }
    var seconds := ParseInteger(feed.syncToken);
    if seconds.None? {
      return Raised(SyncTokenNotInteger);
    }
    var ttl := seconds.value + RetentionSeconds;
    if prevToken == feed.syncToken {
      return Completed;
    }
    ghost var b4 := Build(V4, feed.prefixes, feed.createDate, ttl);
    ghost var b6 := Build(V6, feed.ipv6Prefixes, feed.createDate, ttl);
    ghost var w := FeedItems(feed, ttl);
    IngestIsApply(old(table.items), prevToken, feed, ttl);
    assert Apply(old(table.items), prevToken, feed, ttl) ==
           Run(PutAll(old(table.items), w.items), if w.failure.None? then feed.syncToken else prevToken,
               if w.failure.None? then Completed else Raised(w.failure.value));
    var failure := WriteEntries(table, V4, feed.prefixes, feed.createDate, ttl);
    if failure.Some? {
      assert w == b4;
      return Raised(failure.value);
    }
    assert w == Built(b4.items + b6.items, b6.failure);
    failure := WriteEntries(table, V6, feed.ipv6Prefixes, feed.createDate, ttl);
    PutAllAppend(old(table.items), b4.items, b6.items);
    if failure.Some? {
      return Raised(failure.value);
    }
    param.Put(feed.syncToken);
    return Completed;
  }
}
