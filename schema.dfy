/**
 * The range table both handlers share: items keyed by partition key `pk`
 * (the address family) and sort key `sk`, two secondary indexes on `firstip`
 * and `lastip` that project the keys and `created`, and the sync-token
 * parameter that starts out as the string "empty".  `put_item` replaces the
 * whole item stored under its key and touches no other key.
 */
module Schema {
  import opened Wrappers
  import opened Cidr

  /** The table's primary key. */
  datatype Key = Key(pk: string, sk: string)

  /** The attributes stored beside the key; `token` is the expiry time. */
  datatype Record = Record(service: string, region: string, cidr: string, edge: string,
                           token: int, created: string, firstip: nat, lastip: nat)

  type Table = map<Key, Record>

  /** An item as `put_item` receives it. */
  datatype Item = Item(key: Key, record: Record)

  /** Value of the sync-token parameter when the stack is deployed. */
  const InitialCheckpoint: string := "empty"

  /** `'IPv' + str(version) + '#'`: the partition that holds one family's ranges. */
  function PartitionKey(f: Family): string
  {
    "IPv" + (match f case V4 => "4" case V6 => "6") + "#"
  }

  lemma PartitionKeysDiffer()
    ensures PartitionKey(V4) != PartitionKey(V6)
  {
    assert PartitionKey(V4)[3] != PartitionKey(V6)[3];
  }

  /** The two secondary indexes of the table. */
  datatype IndexName = FirstIp | LastIp

  /** What a secondary index returns for an item: its key and `created`. */
  datatype IndexEntry = IndexEntry(key: Key, created: string)

  function Lookup(t: Table, k: Key): Option<Record>
  {
    if k in t then Some(t[k]) else None
  }

  /** The table after `put_item` of each item in order. */
  function PutAll(t: Table, items: seq<Item>): Table
  {
    if items == [] then t
    else
      var last := items[|items| - 1];
      PutAll(t, items[..|items| - 1])[last.key := last.record]
  }

  /** The record of the last item in `items` with key `k`, if any. */
  function LastWith(items: seq<Item>, k: Key): (r: Option<Record>)
    ensures r.None? <==> forall i :: 0 <= i < |items| ==> items[i].key != k
    ensures r.Some? ==> exists i :: 0 <= i < |items| && items[i] == Item(k, r.value)
  {
    if items == [] then None
    else if items[|items| - 1].key == k then Some(items[|items| - 1].record)
    else
      var r := LastWith(items[..|items| - 1], k);
      assert forall i :: 0 <= i < |items| - 1 ==> items[..|items| - 1][i] == items[i];
      r
  }

  /** Upsert semantics: a key holds the record of the last item written under
      it, and a key no item mentions keeps what it had. */
  lemma {:induction false} PutAllLookup(t: Table, items: seq<Item>, k: Key)
    ensures Lookup(PutAll(t, items), k) == if LastWith(items, k).Some? then LastWith(items, k) else Lookup(t, k)
  {
    if items != [] {
      PutAllLookup(t, items[..|items| - 1], k);
    }
  }

  /** An item no later item overwrites is what the table holds for its key. */
  lemma {:induction false} PutAllKeepsLast(t: Table, items: seq<Item>, i: nat)
    requires i < |items|
    requires forall j :: i < j < |items| ==> items[j].key != items[i].key
    ensures Lookup(PutAll(t, items), items[i].key) == Some(items[i].record)
  {
    if i < |items| - 1 {
      var init := items[..|items| - 1];
      assert forall j :: i < j < |init| ==> init[j] == items[j];
      PutAllKeepsLast(t, init, i);
    }
  }

  lemma {:induction false} PutAllAppend(t: Table, a: seq<Item>, b: seq<Item>)
    ensures PutAll(PutAll(t, a), b) == PutAll(t, a + b)
  {
    if b == [] {
      assert a + b == a;
    } else {
      var b' := b[..|b| - 1];
      PutAllAppend(t, a, b');
      assert (a + b)[..|a + b| - 1] == a + b';
    }
  }

  /** Writing one more item of a list on top of its prefix. */
  lemma PutAllStep(t: Table, items: seq<Item>, i: nat)
    requires i < |items|
    ensures PutAll(t, items[..i + 1]) == PutAll(t, items[..i])[items[i].key := items[i].record]
  {
    assert items[..i + 1][..i] == items[..i];
  }

  /** In a concatenation the later part's last occurrence wins. */
  lemma {:induction false} LastWithAppend(a: seq<Item>, b: seq<Item>, k: Key)
    ensures LastWith(a + b, k) == if LastWith(b, k).Some? then LastWith(b, k) else LastWith(a, k)
  {
    if b == [] {
      assert a + b == a;
    } else {
      var b' := b[..|b| - 1];
      assert (a + b)[..|a + b| - 1] == a + b';
      assert (a + b)[|a + b| - 1] == b[|b| - 1];
      LastWithAppend(a, b', k);
    }
  }

  /** The last occurrence of key `k` in `items` is at index `i` when no later
      item has that key. */
  lemma {:induction false} LastWithAt(items: seq<Item>, k: Key, i: nat)
    requires i < |items| && items[i].key == k
    requires forall j :: i < j < |items| ==> items[j].key != k
    ensures LastWith(items, k) == Some(items[i].record)
  {
    if i < |items| - 1 {
      var init := items[..|items| - 1];
      assert forall j :: i < j < |init| ==> init[j] == items[j];
      LastWithAt(init, k, i);
    }
  }

  /** Writing the same items twice leaves the table as writing them once. */
  lemma PutAllIdempotent(t: Table, items: seq<Item>)
    ensures PutAll(PutAll(t, items), items) == PutAll(t, items)
  {
    PutAllAppend(t, items, items);
    var once := PutAll(t, items);
    var twice := PutAll(t, items + items);
    forall k
      ensures Lookup(twice, k) == Lookup(once, k)
    {
      PutAllLookup(t, items, k);
      PutAllLookup(t, items + items, k);
      LastWithAppend(items, items, k);
    }
    assert forall k :: k in twice <==> Lookup(twice, k).Some?;
    assert forall k :: k in once <==> Lookup(once, k).Some?;
    assert once.Keys == twice.Keys;
    assert forall k :: k in once ==> once[k] == Lookup(once, k).value;
  }

  /** The DynamoDB table, as the handlers see it through `put_item` and `query`. */
  class RangeTable {
    var items: Table

    constructor ()
      ensures items == map[]
    {
      items := map[];
    }

    /** `put_item`: store the item under its key, replacing what was there. */
    method PutItem(item: Item)
      modifies this
      ensures items == old(items)[item.key := item.record]
    {
      items := items[item.key := item.record];
    }
  }

  /** The SSM parameter that holds the last applied sync token. */
  class SyncParameter {
    var value: string

    constructor ()
      ensures value == InitialCheckpoint
    {
      value := InitialCheckpoint;
    }

    method Get() returns (v: string)
      ensures v == value
    {
      v := value;
    }

    method Put(v: string)
      modifies this
      ensures value == v
    {
      value := v;
    }
  }
}
