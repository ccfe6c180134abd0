/**
 * The address-lookup handler.  It classifies the address it is given; a
 * special-purpose address (multicast, private, unspecified, reserved,
 * loopback, link-local, tested in that order) is answered with a fixed
 * message.  Otherwise it scans the `firstip` index for the family's ranges
 * that start at or below the address and the `lastip` index for those that
 * end at or above it, intersects the two sets of `sk#created` lines, and
 * answers with the fields of each line in the intersection.  Any exception
 * on the way turns the answer into "Invalid IP Address".  The status code is
 * always 200.
 *
 * As written, a scan whose first page is not its last one fetches the next
 * page and then calls `update` on the list of items, which raises; the answer
 * is then "Invalid IP Address".  `Answer` and `Search` model that;
 * `AnswerAllPages` and `SearchAllPages` model the evidently intended
 * scan that concatenates every page.
 */
module Search {
  import opened Wrappers
  import opened Cidr
  import opened Schema
  import opened Strings

  /** The special-purpose classes the handler reports instead of searching. */
  datatype SpecialUse = Multicast | Private | Unspecified | Reserved | Loopback | LinkLocal

  /** The address library's `is_*` flags for one address. */
  datatype Classes = Classes(multicast: bool, private: bool, unspecified: bool,
                             reserved: bool, loopback: bool, linkLocal: bool)

  predicate Holds(c: Classes, u: SpecialUse)
  {
    match u
    case Multicast => c.multicast
    case Private => c.private
    case Unspecified => c.unspecified
    case Reserved => c.reserved
    case Loopback => c.loopback
    case LinkLocal => c.linkLocal
  }

  /** Position of a class in the handler's chain of tests. */
  function Rank(u: SpecialUse): nat
  {
    match u
    case Multicast => 0
    case Private => 1
    case Unspecified => 2
    case Reserved => 3
    case Loopback => 4
    case LinkLocal => 5
  }

  /** The class the chain of tests reports: the first one that holds, or none. */
  function Classify(c: Classes): (r: Option<SpecialUse>)
    ensures r.Some? ==> Holds(c, r.value) && forall u :: Rank(u) < Rank(r.value) ==> !Holds(c, u)
    ensures r.None? ==> forall u :: !Holds(c, u)
  {
    if c.multicast then Some(Multicast)
    else if c.private then Some(Private)
    else if c.unspecified then Some(Unspecified)
    else if c.reserved then Some(Reserved)
    else if c.loopback then Some(Loopback)
    else if c.linkLocal then Some(LinkLocal)
    else None
  }

  function Message(u: SpecialUse): string
  {
    match u
    case Multicast => "Multicast IP Address"
    case Private => "Private IP Address"
    case Unspecified => "Unspecified IP Address"
    case Reserved => "Reserved IP Address"
    case Loopback => "Loopback IP Address"
    case LinkLocal => "Link Local IP Address"
  }

  const InvalidMessage: string := "Invalid IP Address"

  /** What the address library makes of the event: no address at all, or an
      address of a family with its integer value and its flags. */
  datatype Query = Malformed | Ip(family: Family, value: nat, classes: Classes)

  /** The key condition of a scan: `firstip <= v` on one index, `lastip >= v`
      on the other. */
  predicate Satisfies(idx: IndexName, r: Record, v: nat)
  {
    match idx
    case FirstIp => r.firstip <= v
    case LastIp => r.lastip >= v
  }

  /** The keys a scan of index `idx` in partition `pk` returns. */
  function Matching(t: Table, idx: IndexName, pk: string, v: nat): set<Key>
  {
    set k | k in t && k.pk == pk && Satisfies(idx, t[k], v)
  }

  /** The ranges of partition `pk` that contain `v`. */
  function Containing(t: Table, pk: string, v: nat): set<Key>
  {
    set k | k in t && k.pk == pk && t[k].firstip <= v <= t[k].lastip
  }

  function Project(t: Table, k: Key): IndexEntry
    requires k in t
  {
    IndexEntry(k, t[k].created)
  }

  /** `item['sk'] + '#' + item['created']`. */
  function Line(e: IndexEntry): string
  {
    e.key.sk + "#" + e.created
  }

  /** The lines of one scan, as a set. */
  function Lines(t: Table, idx: IndexName, pk: string, v: nat): set<string>
  {
    set k | k in Matching(t, idx, pk, v) :: Line(Project(t, k))
  }

  /** `set(firstlist) & set(lastlist)`. */
  function Candidates(t: Table, pk: string, v: nat): set<string>
  {
    Lines(t, FirstIp, pk, v) * Lines(t, LastIp, pk, v)
  }

  /** One entry of the answer's `cidrs` list. */
  datatype Summary = Summary(cloud: string, service: string, region: string, cidr: string, lastseen: string)

  /** The first five `#`-separated fields of a line; fewer than five raise. */
  function Summarize(line: string): Option<Summary>
  {
    var p := Split(line, '#');
    if |p| < 5 then None else Some(Summary(p[0], p[1], p[2], p[3], p[4]))
  }

  /** The body before JSON encoding: a message, or the `cidrs` list. */
  datatype Body = Text(message: string) | Cidrs(cidrs: seq<Summary>)

  datatype Response = Response(statusCode: int, body: Body)

  /** What the handler answers, before the order of the set of lines is
      fixed: a message, or one summary per line of a set. */
  datatype Disposition = Say(message: string) | List(lines: set<string>)

  /** The final loop over the intersection: a list if every line has five
      fields, "Invalid IP Address" otherwise. */
  function Listing(ls: set<string>): Disposition
  {
    if forall l :: l in ls ==> Summarize(l).Some? then List(ls) else Say(InvalidMessage)
  }

  /** The handler as written, when one query page holds `capacity` entries. */
  function Answer(t: Table, q: Query, capacity: nat): Disposition
  {
    match q
    case Malformed => Say(InvalidMessage)
    case Ip(f, v, c) =>
      match Classify(c)
      case Some(u) => Say(Message(u))
      case None =>
        var pk := PartitionKey(f);
        if |Matching(t, FirstIp, pk, v)| > capacity || |Matching(t, LastIp, pk, v)| > capacity then
          Say(InvalidMessage)
        else
          Listing(Candidates(t, pk, v))
  }

  /** The handler with scans that read every page. */
  function AnswerAllPages(t: Table, q: Query): Disposition
  {
    match q
    case Malformed => Say(InvalidMessage)
    case Ip(f, v, c) =>
      match Classify(c)
      case Some(u) => Say(Message(u))
      case None => Listing(Candidates(t, PartitionKey(f), v))
  }

  /** `cidrs` lists the lines of `ls` in the order `order`, each once. */
  ghost predicate Lists(ls: set<string>, order: seq<string>, cidrs: seq<Summary>)
  {
    && |order| == |cidrs|
    && (forall i, j :: 0 <= i < j < |order| ==> order[i] != order[j])
    && (forall l :: l in ls <==> l in order)
    && (forall i :: 0 <= i < |order| ==> Summarize(order[i]) == Some(cidrs[i]))
  }

  /** The body carries the disposition, with the set's lines in `order`. */
  ghost predicate Renders(d: Disposition, body: Body, order: seq<string>)
  {
    match d
    case Say(m) => body == Text(m)
    case List(ls) => body.Cidrs? && Lists(ls, order, body.cidrs)
  }

  function Min(a: nat, b: nat): nat
  {
    if a <= b then a else b
  }

  /** One query page: the entries from position `start` on, at most
      `capacity` of them. */
  function Page(all: seq<IndexEntry>, start: nat, capacity: nat): seq<IndexEntry>
    requires start <= |all|
  {
    all[start..Min(start + capacity, |all|)]
  }

  /** The page from `start` carries a `LastEvaluatedKey`: entries remain after it. */
  predicate HasMore(all: seq<IndexEntry>, start: nat, capacity: nat)
  {
    start + capacity < |all|
  }

  /** `all` lists the index entries of exactly the keys `keys`, each once. */
  ghost predicate Enumerates(t: Table, all: seq<IndexEntry>, keys: set<Key>)
  {
    && (forall i :: 0 <= i < |all| ==> all[i].key in keys && all[i].key in t && all[i] == Project(t, all[i].key))
    && (forall i, j :: 0 <= i < j < |all| ==> all[i].key != all[j].key)
    && (forall k :: k in keys ==> exists i :: 0 <= i < |all| && all[i].key == k)
  }

  lemma EnumeratesExtend(t: Table, all: seq<IndexEntry>, keys: set<Key>, k: Key)
    requires Enumerates(t, all, keys) && k in t && k !in keys
    ensures Enumerates(t, all + [Project(t, k)], keys + {k})
  {
    var all' := all + [Project(t, k)];
    forall k' | k' in keys + {k}
      ensures exists i :: 0 <= i < |all'| && all'[i].key == k'
    {
      if k' == k {
        assert all'[|all|].key == k;
      } else {
        var i :| 0 <= i < |all| && all[i].key == k';
        assert all'[i].key == k';
      }
    }
  }

  /** The index entries of `keys`, each once, in an order of the store's
      choosing. */
  method Enumerate(t: Table, keys: set<Key>) returns (all: seq<IndexEntry>)
    requires forall k :: k in keys ==> k in t
    ensures Enumerates(t, all, keys)
    ensures |all| == |keys|
  {
    var remaining := keys;
    ghost var taken: set<Key> := {};
    all := [];
    while remaining != {}
      invariant remaining <= keys && taken == keys - remaining
      invariant |all| == |taken|
      invariant Enumerates(t, all, taken)
      decreases |remaining|
    {
      var k :| k in remaining;
      EnumeratesExtend(t, all, taken, k);
      all := all + [Project(t, k)];
      taken := taken + {k};
      remaining := remaining - {k};
    }
  }

  /** A scan's entries in the index's order: each matching key once, with its
      projected `created`.  This stands in for the index the queries read. */
  method ReadIndex(table: RangeTable, idx: IndexName, pk: string, v: nat) returns (all: seq<IndexEntry>)
    ensures Enumerates(table.items, all, Matching(table.items, idx, pk, v))
    ensures |all| == |Matching(table.items, idx, pk, v)|
  {
    all := Enumerate(table.items, Matching(table.items, idx, pk, v));
  }

  /** `for item in data: lines.append(item['sk'] + '#' + item['created'])`. */
  method LinesOf(entries: seq<IndexEntry>) returns (lines: seq<string>)
    ensures |lines| == |entries|
    ensures forall i :: 0 <= i < |entries| ==> lines[i] == Line(entries[i])
  {
    lines := [];
    for i := 0 to |entries|
      invariant |lines| == i
      invariant forall j :: 0 <= j < i ==> lines[j] == Line(entries[j])
    {
      lines := lines + [Line(entries[i])];
    }
  }

  /** The lines of a whole scan are the scan's line set. */
  lemma LinesOfScan(t: Table, idx: IndexName, pk: string, v: nat, all: seq<IndexEntry>, lines: seq<string>)
    requires Enumerates(t, all, Matching(t, idx, pk, v))
    requires |lines| == |all| && forall i :: 0 <= i < |all| ==> lines[i] == Line(all[i])
    ensures (set l | l in lines) == Lines(t, idx, pk, v)
  {
    forall l | l in Lines(t, idx, pk, v)
      ensures l in lines
    {
      var k :| k in Matching(t, idx, pk, v) && l == Line(Project(t, k));
      var i :| 0 <= i < |all| && all[i].key == k;
      assert lines[i] == l;
    }
  }

  /** `for line in matches`: split each line and append its summary; a line
      with fewer than five fields raises and the answer is the message. */
  method Summaries(matches: set<string>) returns (body: Body, ghost order: seq<string>)
    ensures body.Text? <==> exists l :: l in matches && Summarize(l).None?
    ensures body.Text? ==> body.message == InvalidMessage
    ensures Renders(Listing(matches), body, order)
  {
    var remaining := matches;
    var cidrs: seq<Summary> := [];
    order := [];
    while remaining != {}
      invariant remaining <= matches
      invariant forall l :: l in matches <==> l in remaining || l in order
      invariant forall l :: l in order ==> l !in remaining
      invariant forall i, j :: 0 <= i < j < |order| ==> order[i] != order[j]
      invariant |order| == |cidrs|
      invariant forall i :: 0 <= i < |order| ==> Summarize(order[i]) == Some(cidrs[i])
      decreases |remaining|
    {
      var l :| l in remaining;
      var s := Summarize(l);
      if s.None? {
        return Text(InvalidMessage), order;
      }
      cidrs := cidrs + [s.value];
      order := order + [l];
      remaining := remaining - {l};
    }
    forall l | l in matches
      ensures Summarize(l).Some?
    {
      var i :| 0 <= i < |order| && order[i] == l;
    }
    body := Cidrs(cidrs);
  }

  /** The handler as written.  A scan whose first page is not its last makes
      the handler fetch the next page and then raise. */
  method Search(table: RangeTable, q: Query, capacity: nat) returns (resp: Response, ghost order: seq<string>)
    ensures resp.statusCode == 200
    ensures Renders(Answer(table.items, q, capacity), resp.body, order)
  {
    order := [];
    if q.Malformed? {
      return Response(200, Text(InvalidMessage)), order;
    }
    var special := Classify(q.classes);
    if special.Some? {
      return Response(200, Text(Message(special.value))), order;
    }
    var pk := PartitionKey(q.family);
    var first := ReadIndex(table, FirstIp, pk, q.value);
    if HasMore(first, 0, capacity) {
      return Response(200, Text(InvalidMessage)), order;
    }
    var firstLines := LinesOf(Page(first, 0, capacity));
    var last := ReadIndex(table, LastIp, pk, q.value);
    if HasMore(last, 0, capacity) {
      return Response(200, Text(InvalidMessage)), order;
    }
    var lastLines := LinesOf(Page(last, 0, capacity));
    assert Page(first, 0, capacity) == first && Page(last, 0, capacity) == last;
    LinesOfScan(table.items, FirstIp, pk, q.value, first, firstLines);
    LinesOfScan(table.items, LastIp, pk, q.value, last, lastLines);
    var matches := (set l | l in firstLines) * (set l | l in lastLines);
    var body;
    body, order := Summaries(matches);
    return Response(200, body), order;
  }

  /** The evidently intended scan: keep querying from where the last page
      ended, and add each page's entries to the list. */
  method ReadAllPages(all: seq<IndexEntry>, capacity: nat) returns (data: seq<IndexEntry>)
    requires capacity >= 1
    ensures data == all
  {
    var start := 0;
    data := Page(all, 0, capacity);
    while HasMore(all, start, capacity)
      invariant start <= |all|
      invariant data == all[..Min(start + capacity, |all|)]
      decreases |all| - start
    {
      start := start + capacity;
      data := data + Page(all, start, capacity);
    }
  }

  /** The handler with scans that read every page, whatever the page size. */
  method SearchAllPages(table: RangeTable, q: Query, capacity: nat) returns (resp: Response, ghost order: seq<string>)
    requires capacity >= 1
    ensures resp.statusCode == 200
    ensures Renders(AnswerAllPages(table.items, q), resp.body, order)
  {
    order := [];
    if q.Malformed? {
      return Response(200, Text(InvalidMessage)), order;
    }
    var special := Classify(q.classes);
    if special.Some? {
      return Response(200, Text(Message(special.value))), order;
    }
    var pk := PartitionKey(q.family);
    var firstIndex := ReadIndex(table, FirstIp, pk, q.value);
    var first := ReadAllPages(firstIndex, capacity);
    var firstLines := LinesOf(first);
    var lastIndex := ReadIndex(table, LastIp, pk, q.value);
    var last := ReadAllPages(lastIndex, capacity);
    var lastLines := LinesOf(last);
    LinesOfScan(table.items, FirstIp, pk, q.value, first, firstLines);
    LinesOfScan(table.items, LastIp, pk, q.value, last, lastLines);
    var matches := (set l | l in firstLines) * (set l | l in lastLines);
    var body;
    body, order := Summaries(matches);
    return Response(200, body), order;
  }

  /** A line determines its sort key and its date when the date has no `#`. */
  lemma LineInjective(s1: string, c1: string, s2: string, c2: string)
    requires '#' !in c1 && '#' !in c2
    requires s1 + "#" + c1 == s2 + "#" + c2
    ensures s1 == s2 && c1 == c2
  {
    var x := s1 + "#" + c1;
    assert x[|s1|] == '#' && x[|s2|] == '#';
    assert s1 == x[..|s1|] && s2 == x[..|s2|];
    assert c1 == x[|s1| + 1..] && c2 == x[|s2| + 1..];
  }

  /** As long as no stored date holds a `#`, a line is in both scans exactly
      when its range contains the address. */
  lemma CandidatesAreContaining(t: Table, pk: string, v: nat)
    requires forall k :: k in t ==> '#' !in t[k].created
    ensures Candidates(t, pk, v) == set k | k in Containing(t, pk, v) :: Line(Project(t, k))
  {
    forall l | l in Candidates(t, pk, v)
      ensures exists k :: k in Containing(t, pk, v) && l == Line(Project(t, k))
    {
      var k1 :| k1 in Matching(t, FirstIp, pk, v) && l == Line(Project(t, k1));
      var k2 :| k2 in Matching(t, LastIp, pk, v) && l == Line(Project(t, k2));
      LineInjective(k1.sk, t[k1].created, k2.sk, t[k2].created);
      assert k1 == k2;
    }
    forall k | k in Containing(t, pk, v)
      ensures Line(Project(t, k)) in Candidates(t, pk, v)
    {
      assert k in Matching(t, FirstIp, pk, v) && k in Matching(t, LastIp, pk, v);
    }
  }

  /** A line built from `#`-free fields summarizes to its first five fields;
      with fewer than five it is rejected. */
  lemma SummarizeJoin(parts: seq<string>)
    requires |parts| >= 1
    requires forall i :: 0 <= i < |parts| ==> '#' !in parts[i]
    ensures Summarize(Join(parts, '#')) ==
            if |parts| < 5 then None else Some(Summary(parts[0], parts[1], parts[2], parts[3], parts[4]))
  {
    SplitJoin(parts, '#');
  }

  /** The five-field form of a line: what the stored sort key and date give
      for a published range. */
  lemma SummarizeFields(a: string, b: string, c: string, d: string, e: string)
    requires '#' !in a && '#' !in b && '#' !in c && '#' !in d && '#' !in e
    ensures Summarize(a + "#" + b + "#" + c + "#" + d + "#" + e) == Some(Summary(a, b, c, d, e))
  {
    var parts := [a, b, c, d, e];
    assert Join(parts[4..], '#') == e;
    assert Join(parts[3..], '#') == d + "#" + e by { assert parts[3..][1..] == parts[4..]; }
    assert Join(parts[2..], '#') == c + "#" + d + "#" + e by { assert parts[2..][1..] == parts[3..]; }
    assert Join(parts[1..], '#') == b + "#" + c + "#" + d + "#" + e by { assert parts[1..][1..] == parts[2..]; }
    assert Join(parts, '#') == a + "#" + b + "#" + c + "#" + d + "#" + e;
    SummarizeJoin(parts);
  }

  lemma {:induction false} SubsetCardinality(a: set<Key>, b: set<Key>)
    requires a <= b
    ensures |a| <= |b|
  {
    if a != {} {
      var x :| x in a;
      SubsetCardinality(a - {x}, b - {x});
    }
  }

  /** Each range that contains the address is in the `firstip` scan, so when
      more of them exist than one page holds, the handler as written answers
      "Invalid IP Address"; when both scans fit in a page it answers as the
      all-pages handler does. */
  lemma PagingDiscardsMatches(t: Table, q: Query, capacity: nat)
    requires q.Ip? && Classify(q.classes).None?
    ensures capacity < |Containing(t, PartitionKey(q.family), q.value)| ==>
              Answer(t, q, capacity) == Say(InvalidMessage)
    ensures |Matching(t, FirstIp, PartitionKey(q.family), q.value)| <= capacity &&
            |Matching(t, LastIp, PartitionKey(q.family), q.value)| <= capacity ==>
              Answer(t, q, capacity) == AnswerAllPages(t, q)
  {
    var pk := PartitionKey(q.family);
    SubsetCardinality(Containing(t, pk, q.value), Matching(t, FirstIp, pk, q.value));
  }

  /** Two tables that agree on partition `pk`. */
  ghost predicate AgreeOn(t: Table, u: Table, pk: string)
  {
    forall k: Key :: k.pk == pk ==> (k in t <==> k in u) && (k in t ==> t[k] == u[k])
  }

  /** The answer depends only on the partition of the address's family:
      items of the other family, and anything outside the table's two
      partitions, cannot change it. */
  lemma AnswerIsPartitionLocal(t: Table, u: Table, q: Query, capacity: nat)
    requires q.Ip? && AgreeOn(t, u, PartitionKey(q.family))
    ensures Answer(t, q, capacity) == Answer(u, q, capacity)
    ensures AnswerAllPages(t, q) == AnswerAllPages(u, q)
  {
    var pk := PartitionKey(q.family);
    assert Matching(t, FirstIp, pk, q.value) == Matching(u, FirstIp, pk, q.value);
    assert Matching(t, LastIp, pk, q.value) == Matching(u, LastIp, pk, q.value);
    assert Lines(t, FirstIp, pk, q.value) == Lines(u, FirstIp, pk, q.value);
    assert Lines(t, LastIp, pk, q.value) == Lines(u, LastIp, pk, q.value);
  }

  /** Two published ranges for the same block, 10.0.0.0/8 in region R, under
      the services S and T, both last seen on `date`, and a query for 10.0.0.1
      that both contain. */
  function ExampleKey(service: string): Key
  {
    Key("IPv4#", "AWS" + "#" + service + "#" + "R" + "#" + "10.0.0.0/8")
  }

  function ExampleTable(date: string): Table
  {
    var r := Record("S", "R", "10.0.0.0/8", "R", 0, date, 167772160, 184549375);
    map[ExampleKey("S") := r, ExampleKey("T") := r.(service := "T")]
  }

  const ExampleQuery := Ip(V4, 167772161, Classes(false, false, false, false, false, false))

  function ExampleLine(service: string, date: string): string
  {
    ExampleKey(service).sk + "#" + date
  }

  lemma ExampleContaining(date: string)
    ensures Containing(ExampleTable(date), "IPv4#", 167772161) == {ExampleKey("S"), ExampleKey("T")}
    ensures ExampleKey("S") != ExampleKey("T")
  {
    assert ExampleKey("S").sk[4] != ExampleKey("T").sk[4];
  }

  lemma ExampleCandidates(date: string)
    requires '#' !in date
    ensures Candidates(ExampleTable(date), "IPv4#", 167772161) ==
            {ExampleLine("S", date), ExampleLine("T", date)}
  {
    ExampleContaining(date);
    CandidatesAreContaining(ExampleTable(date), "IPv4#", 167772161);
  }

  /** With one entry per page, the handler as written answers "Invalid IP
      Address" for an address that two ranges contain ... */
  lemma TwoRangesOnePage(date: string)
    ensures Answer(ExampleTable(date), ExampleQuery, 1) == Say(InvalidMessage)
  {
    ExampleContaining(date);
    assert |Containing(ExampleTable(date), "IPv4#", 167772161)| == 2;
    PagingDiscardsMatches(ExampleTable(date), ExampleQuery, 1);
  }

  lemma ExampleSummaries(date: string)
    requires '#' !in date
    ensures Summarize(ExampleLine("S", date)) == Some(Summary("AWS", "S", "R", "10.0.0.0/8", date))
    ensures Summarize(ExampleLine("T", date)) == Some(Summary("AWS", "T", "R", "10.0.0.0/8", date))
  {
    SummarizeFields("AWS", "S", "R", "10.0.0.0/8", date);
    SummarizeFields("AWS", "T", "R", "10.0.0.0/8", date);
  }

  /** ... while reading every page lists both ranges. */
  lemma TwoRangesAllPages(date: string)
    requires '#' !in date
    ensures AnswerAllPages(ExampleTable(date), ExampleQuery) ==
            List({ExampleLine("S", date), ExampleLine("T", date)})
  {
    ExampleCandidates(date);
    ExampleSummaries(date);
  }
}
