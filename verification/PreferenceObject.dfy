/** The preference table, changed in place by `write` and walked by `read`. */
module PreferenceObject {
  import opened Outcomes
  import opened Hex
  import opened PreferenceTree
  import opened Preferences

  lemma {:induction false} RowsInOrder(codec: Codec, kind: string, m: map<Uuid, Settings>, ids: seq<Uuid>)
    requires forall id :: id in ids ==> id in m
    ensures var rows := ToRows(codec, kind, m, ids);
            && |rows| == |ids|
            && forall i :: 0 <= i < |ids| ==> rows[i] == Row([kind] + Split(HexEncode(ids[i])), codec.encode(m[ids[i]]))
    decreases |ids|
  {
    if ids != [] {
      RowsInOrder(codec, kind, m, ids[1..]);
    }
  }

  lemma DecodableStep(codec: Codec, table: Table, keys: seq<string>, i: nat, rows: seq<Row>)
    requires i < |keys| && forall key :: key in keys ==> key in table
    ensures var value := table[keys[i]];
            rows + Decodable(codec, table, keys[i..])
            == (if value.Some? && codec.reread(value.value).Some? then rows + [Row(Split(keys[i]), codec.reread(value.value).value)] else rows)
               + Decodable(codec, table, keys[i + 1..])
  {
    assert keys[i..][0] == keys[i] && keys[i..][1..] == keys[i + 1..];
    hide Split;
  }

  class PreferenceStore {
    var table: Table

    constructor (table: Table)
      ensures this.table == table
    {
      this.table := table;
    }

    /** `to_kvs` of one map. */
    method ToKvs(codec: Codec, m: map<Uuid, Settings>, ids: seq<Uuid>) returns (kvs: seq<Row>)
      requires forall id :: id in ids ==> id in m
      ensures |kvs| == |ids|
      ensures forall i :: 0 <= i < |ids| ==> kvs[i] == Row(Split(HexEncode(ids[i])), codec.encode(m[ids[i]]))
    {
      kvs := [];
      for i := 0 to |ids|
        invariant |kvs| == i
        invariant forall j :: 0 <= j < i ==> kvs[j] == Row(Split(HexEncode(ids[j])), codec.encode(m[ids[j]]))
      {
        kvs := kvs + [Row(Split(HexEncode(ids[i])), codec.encode(m[ids[i]]))];
      }
    }

    /** `with_prefix`: every key gets one more part in front. */
    method WithPrefix(kvs: seq<Row>, prefix: string) returns (r: seq<Row>)
      ensures |r| == |kvs| && forall i :: 0 <= i < |kvs| ==> r[i] == Row([prefix] + kvs[i].path, kvs[i].value)
    {
      r := kvs;
      for i := 0 to |kvs|
        invariant |r| == |kvs|
        invariant forall j :: 0 <= j < |kvs| ==> r[j] == if j < i then Row([prefix] + kvs[j].path, kvs[j].value) else kvs[j]
      {
        r := r[i := r[i].(path := [prefix] + r[i].path)];
      }
    }

    /** `write`: one upsert per setting. */
    method WriteAll(codec: Codec, p: LibraryPreferences, locations: seq<Uuid>, tags: seq<Uuid>)
      requires (forall id :: id in locations ==> id in p.location) && (forall id :: id in tags ==> id in p.tag)
      modifies this
      ensures table == Write(codec, old(table), p, locations, tags)
    {
      var kvs := ToKvs(codec, p.location, locations);
      var rows := WithPrefix(kvs, "location");
      kvs := ToKvs(codec, p.tag, tags);
      var more := WithPrefix(kvs, "tag");
      RowsInOrder(codec, "location", p.location, locations);
      RowsInOrder(codec, "tag", p.tag, tags);
      assert rows == ToRows(codec, "location", p.location, locations) && more == ToRows(codec, "tag", p.tag, tags);
      rows := rows + more;
      for i := 0 to |rows|
        invariant Upserts(old(table), rows) == Upserts(table, rows[i..])
      {
        assert rows[i..][1..] == rows[i + 1..];
        table := table[Join(rows[i].path) := Some(rows[i].value)];
      }
    }

    /** The rows found by the query that can be decoded. */
    method FindRows(codec: Codec, keys: seq<string>) returns (rows: seq<Row>)
      requires forall key :: key in keys ==> key in table
      ensures rows == Decodable(codec, table, keys)
    {
      rows := [];
      for i := 0 to |keys|
        invariant Decodable(codec, table, keys) == rows + Decodable(codec, table, keys[i..])
      {
        DecodableStep(codec, table, keys, i, rows);
        hide Split, Decodable;
        var value := table[keys[i]];
        if value.Some? {
          var decoded := codec.reread(value.value);
          if decoded.Some? {
            rows := rows + [Row(Split(keys[i]), decoded.value)];
          }
        }
      }
      assert keys[|keys|..] == [] && rows + [] == rows;
    }

    /** `parse`: the rows are inserted one after another. */
    method BuildTree(rows: seq<Row>) returns (entries: Option<Entries>)
      ensures entries == Build(rows)
    {
      entries := Some(map[]);
      for i := 0 to |rows|
        invariant entries == Build(rows[..i])
      {
        assert rows[..i + 1][..i] == rows[..i];
        entries := InsertRow(entries, rows[i]);
      }
      assert rows[..|rows|] == rows;
    }

    /** `read`. */
    method ReadAll(codec: Codec, order: KeyOrder, keys: seq<string>) returns (r: Option<LibraryPreferences>)
      requires Orders(order) && Lists(keys, table.Keys)
      ensures r == Read(codec, order, table, keys)
    {
      var rows := FindRows(codec, keys);
      var entries := BuildTree(rows);
      if entries.None? {
        return None;
      }
      var location, tag := Branch(codec, order, entries.value, "location"), Branch(codec, order, entries.value, "tag");
      r := if location.None? || tag.None? then None else Some(LibraryPreferences(location.value, tag.value));
    }
  }
}
