/** The index snapshot file: `snapshot.rs`. The checksum is a parameter, as for records. */
module SnapshotCodec {
  import opened Bytes
  import opened Records

  const SNAPSHOT_MAGIC: nat := 0x534B_5350
  const SNAPSHOT_HEADER: nat := 19

  /** One index entry as stored. */
  datatype Item = Item(key: Key, fingerprint: nat, segment: nat, offset: nat, size: nat)

  datatype Snapshot = Snapshot(hwm: nat, maxTs: nat, items: seq<Item>)

  predicate ItemOk(e: Item) {
    |e.key| <= U32_MAX && e.fingerprint <= U32_MAX && e.segment < 0x1_0000 && e.offset <= U32_MAX && e.size <= U32_MAX
  }

  predicate SnapshotOk(s: Snapshot) {
    s.hwm < 0x1_0000 && s.maxTs <= U64_MAX && |s.items| <= U32_MAX && forall i :: 0 <= i < |s.items| ==> ItemOk(s.items[i])
  }

  // ---- Encoding ----

  /** The fixed-width fields after the key. */
  function Fields(e: Item): (s: seq<byte>)
    ensures |s| == 14
  {
    ToLE(e.fingerprint, 4) + ToLE(e.segment, 2) + ToLE(e.offset, 4) + ToLE(e.size, 4)
  }

  function ItemBytes(e: Item): (s: seq<byte>)
    ensures |s| == 18 + |e.key|
  {
    ToLE(|e.key|, 4) + (e.key + Fields(e))
  }

  function ItemsBytes(items: seq<Item>): seq<byte> {
    if items == [] then [] else ItemBytes(items[0]) + ItemsBytes(items[1..])
  }

  function HeadBytes(s: Snapshot): (h: seq<byte>)
    ensures |h| == SNAPSHOT_HEADER
  {
    ToLE(SNAPSHOT_MAGIC, 4) + [1] + ToLE(s.hwm, 2) + ToLE(s.maxTs, 8) + ToLE(|s.items|, 4)
  }

  /** The whole file: header, entries, checksum of both. */
  function SnapshotBytes(crc: Checksum, s: Snapshot): seq<byte> {
    var body := HeadBytes(s) + ItemsBytes(s.items);
    body + ToLE(crc(body), 4)
  }

  method Encode(crc: Checksum, s: Snapshot) returns (buf: seq<byte>)
    ensures buf == SnapshotBytes(crc, s)
  {
    hide ToLE, ItemBytes;
    buf := HeadBytes(s);
    ghost var head := buf;
    assert s.items[0..] == s.items;
    for i := 0 to |s.items|
      invariant buf + ItemsBytes(s.items[i..]) == head + ItemsBytes(s.items)
    {
      assert s.items[i..][0] == s.items[i] && s.items[i..][1..] == s.items[i + 1..];
      buf := buf + ItemBytes(s.items[i]);
    }
    assert buf + [] == buf;
    buf := buf + ToLE(crc(buf), 4);
  }

  // ---- Decoding ----

  /** One entry at the front of `s`, and the bytes it takes. */
  function ReadItem(s: seq<byte>): (r: Option<Item>)
    ensures r.Some? ==> 18 + |r.value.key| <= |s|
  {
    if |s| < 4 then None
    else
      var klen := FromLE(s[0..4]);
      if |s| < 4 + klen + 14 then None
      else
        var f := s[4 + klen..4 + klen + 14];
        Some(Item(s[4..4 + klen], FromLE(f[0..4]), FromLE(f[4..6]), FromLE(f[6..10]), FromLE(f[10..14])))
  }

  function ReadItems(s: seq<byte>, n: nat): Option<seq<Item>> {
    if n == 0 then Some([])
    else
      var e := ReadItem(s);
      if e.None? then None
      else
        var rest := ReadItems(s[18 + |e.value.key|..], n - 1);
        if rest.None? then None else Some([e.value] + rest.value)
  }

  /** `decode`, check by check; bytes between the last entry and the checksum are not looked at. */
  function DecodeSnapshot(crc: Checksum, buf: seq<byte>): Option<Snapshot> {
    if |buf| < SNAPSHOT_HEADER + 4 then None
    else
      var body := buf[..|buf| - 4];
      if crc(body) != FromLE(buf[|buf| - 4..]) then None
      else if FromLE(body[0..4]) != SNAPSHOT_MAGIC || body[4] != 1 then None
      else
        var items := ReadItems(body[SNAPSHOT_HEADER..], FromLE(body[15..19]));
        if items.None? then None else Some(Snapshot(FromLE(body[5..7]), FromLE(body[7..15]), items.value))
  }

  /** What was read, in front of the outcome of the rest. */
  function Then(items: seq<Item>, rest: Option<seq<Item>>): Option<seq<Item>> {
    if rest.None? then None else Some(items + rest.value)
  }

  lemma ThenNothing(r: Option<seq<Item>>)
    ensures Then([], r) == r
  {
    if r.Some? {
      assert [] + r.value == r.value;
    }
  }

  /** One turn of the loop. */
  lemma {:induction false} ReadTurn(s: seq<byte>, n: nat, items: seq<Item>)
    requires n > 0
    ensures var e := ReadItem(s);
            Then(items, ReadItems(s, n)) == if e.None? then None else Then(items + [e.value], ReadItems(s[18 + |e.value.key|..], n - 1))
  {
    hide ReadItem;
    var e := ReadItem(s);
    if e.Some? {
      var rest := ReadItems(s[18 + |e.value.key|..], n - 1);
      if rest.Some? {
        assert items + ([e.value] + rest.value) == items + [e.value] + rest.value;
      }
    }
  }

  lemma ReadEnd(s: seq<byte>, items: seq<Item>)
    ensures Then(items, ReadItems(s, 0)) == Some(items)
  {
    assert items + [] == items;
  }

  method Decode(crc: Checksum, buf: seq<byte>) returns (r: Option<Snapshot>)
    ensures r == DecodeSnapshot(crc, buf)
  {
    hide FromLE, ReadItem, ReadItems, Then;
    if |buf| < SNAPSHOT_HEADER + 4 {
      return None;
    }
    var end := |buf| - 4;
    var body := buf[..end];
    if crc(body) != FromLE(buf[end..]) {
      return None;
    }
    if FromLE(body[0..4]) != SNAPSHOT_MAGIC || body[4] != 1 {
      return None;
    }
    var n := FromLE(body[15..19]);
    var items: seq<Item>, pos := [], SNAPSHOT_HEADER;
    ghost var goal := ReadItems(body[SNAPSHOT_HEADER..], n);
    ThenNothing(goal);
    for i := 0 to n
      invariant SNAPSHOT_HEADER <= pos <= end && Then(items, ReadItems(body[pos..], n - i)) == goal
    {
      var e := ReadItem(body[pos..]);
      ReadTurn(body[pos..], n - i, items);
      if e.None? {
        return None;
      }
      assert body[pos..][18 + |e.value.key|..] == body[pos + 18 + |e.value.key|..];
      pos := pos + 18 + |e.value.key|;
      items := items + [e.value];
    }
    ReadEnd(body[pos..], items);
    r := Some(Snapshot(FromLE(body[5..7]), FromLE(body[7..15]), items));
  }

  // ---- The round trip ----

  lemma FieldsAt(e: Item)
    ensures var f := Fields(e);
            f[0..4] == ToLE(e.fingerprint, 4) && f[4..6] == ToLE(e.segment, 2) && f[6..10] == ToLE(e.offset, 4) && f[10..14] == ToLE(e.size, 4)
  {
    hide ToLE;
  }

  lemma ItemAt(e: Item, rest: seq<byte>)
    ensures var (s, k) := (ItemBytes(e) + rest, |e.key|);
            && s[0..4] == ToLE(k, 4) && s[4..4 + k] == e.key && s[4 + k..4 + k + 14] == Fields(e) && s[18 + k..] == rest
  {
    hide ToLE, Fields;
  }

  lemma ItemRead(e: Item, rest: seq<byte>)
    requires ItemOk(e)
    ensures ReadItem(ItemBytes(e) + rest) == Some(e) && (ItemBytes(e) + rest)[18 + |e.key|..] == rest
  {
    hide ToLE, FromLE, Fields, ItemBytes;
    ItemAt(e, rest);
    FieldsAt(e);
    Pow256Widths();
    LERoundTrip(|e.key|, 4);
    LERoundTrip(e.fingerprint, 4);
    LERoundTrip(e.segment, 2);
    LERoundTrip(e.offset, 4);
    LERoundTrip(e.size, 4);
  }

  lemma {:induction false} ItemsRead(items: seq<Item>)
    requires forall i :: 0 <= i < |items| ==> ItemOk(items[i])
    ensures ReadItems(ItemsBytes(items), |items|) == Some(items)
  {
    hide ReadItem, ItemBytes, ItemOk;
    if items != [] {
      var rest := ItemsBytes(items[1..]);
      ItemRead(items[0], rest);
      ItemsRead(items[1..]);
      assert ItemsBytes(items) == ItemBytes(items[0]) + rest;
      assert items == [items[0]] + items[1..];
    }
  }

  lemma HeadAt(s: Snapshot, rest: seq<byte>)
    ensures var b := HeadBytes(s) + rest;
            && b[0..4] == ToLE(SNAPSHOT_MAGIC, 4) && b[4] == 1 && b[5..7] == ToLE(s.hwm, 2) && b[7..15] == ToLE(s.maxTs, 8)
            && b[15..19] == ToLE(|s.items|, 4) && b[SNAPSHOT_HEADER..] == rest
  {
    hide ToLE;
  }

  /** Decoding an encoded snapshot returns it. */
  lemma DecodeEncodeSnapshot(crc: Checksum, s: Snapshot)
    requires SnapshotOk(s)
    ensures DecodeSnapshot(crc, SnapshotBytes(crc, s)) == Some(s)
  {
    hide ToLE, FromLE, HeadBytes, ItemsBytes, ReadItems, ItemOk;
    var (body, buf) := (HeadBytes(s) + ItemsBytes(s.items), SnapshotBytes(crc, s));
    assert buf[..|buf| - 4] == body && buf[|buf| - 4..] == ToLE(crc(body), 4);
    HeadAt(s, ItemsBytes(s.items));
    ItemsRead(s.items);
    Pow256Widths();
    LERoundTrip(crc(body), 4);
    LERoundTrip(SNAPSHOT_MAGIC, 4);
    LERoundTrip(s.hwm, 2);
    LERoundTrip(s.maxTs, 8);
    LERoundTrip(|s.items|, 4);
  }
}
