/**
 Library preferences: two maps of settings, stored as one row per setting under a dotted key, and read
 back through the tree of `PreferenceTree`.
 */
module Preferences {
  import opened Outcomes
  import opened Bytes
  import opened Hex
  import opened PreferenceTree

  type Settings(==, !new)

  type Uuid = u: seq<byte> | |u| == 16 witness seq(16, _ => 0)

  datatype LibraryPreferences = LibraryPreferences(location: map<Uuid, Settings>, tag: map<Uuid, Settings>)

  /** The preference table: unique keys, and values that may be null. */
  type Table = map<string, Option<Blob>>

  /**
   Serialization as the program uses it: `encode` a setting, `reread` a stored blob into the form that
   is put in the tree, `decode` that form. `otherUuid` reads the text forms of an id other than 32 digits.
   */
  datatype Codec = Codec(
    encode: Settings -> Blob, reread: Blob -> Option<Blob>, decode: Blob -> Option<Settings>,
    otherUuid: string -> Option<Uuid>)

  ghost predicate Inverts(codec: Codec) {
    forall s :: codec.reread(codec.encode(s)).Some? && codec.decode(codec.reread(codec.encode(s)).value) == Some(s)
  }

  /* ----- dotted keys ----- */

  function Split(s: string): (parts: Path) {
    if s == [] then [""]
    else if s[0] == '.' then [""] + Split(s[1..])
    else
      var rest := Split(s[1..]);
      [[s[0]] + rest[0]] + rest[1..]
  }

  function Join(parts: Path): string {
    if |parts| == 1 then parts[0] else parts[0] + "." + Join(parts[1..])
  }

  lemma {:induction false} JoinOfSplit(s: string)
    ensures Join(Split(s)) == s
    decreases |s|
  {
    if s != [] {
      JoinOfSplit(s[1..]);
      var rest := Split(s[1..]);
      if s[0] == '.' {
        assert Split(s)[1..] == rest;
      } else {
        assert Split(s)[1..] == rest[1..];
      }
    }
  }

  predicate Dotless(s: string) {
    '.' !in s
  }

  lemma {:induction false} SplitDotless(s: string)
    requires Dotless(s)
    ensures Split(s) == [s]
    decreases |s|
  {
    if s != [] {
      assert s[0] in s && s == [s[0]] + s[1..];
      SplitDotless(s[1..]);
    }
  }

  lemma {:induction false} SplitPrefixed(s: string, rest: string)
    requires Dotless(s)
    ensures Split(s + "." + rest) == [s] + Split(rest)
    decreases |s|
  {
    var t := s + "." + rest;
    if s == [] {
      assert t[1..] == rest;
    } else {
      assert s[0] in s && s == [s[0]] + s[1..];
      SplitPrefixed(s[1..], rest);
      assert t[0] == s[0] && t[1..] == s[1..] + "." + rest;
    }
  }

  /** Keys and paths are the same thing, as long as no part has a dot. */
  lemma {:induction false} SplitOfJoin(parts: Path)
    requires forall i :: 0 <= i < |parts| ==> Dotless(parts[i])
    ensures Split(Join(parts)) == parts
    decreases |parts|
  {
    if |parts| == 1 {
      SplitDotless(parts[0]);
    } else {
      SplitOfJoin(parts[1..]);
      SplitPrefixed(parts[0], Join(parts[1..]));
    }
  }

  /* ----- writing ----- */

  /** The rows of one map; `ids` is the order in which a hash map is walked. */
  function ToRows(codec: Codec, kind: string, m: map<Uuid, Settings>, ids: seq<Uuid>): seq<Row>
    requires forall id :: id in ids ==> id in m
  {
    if ids == [] then []
    else [Row([kind] + Split(HexEncode(ids[0])), codec.encode(m[ids[0]]))] + ToRows(codec, kind, m, ids[1..])
  }

  function Upserts(table: Table, rows: seq<Row>): Table
    decreases |rows|
  {
    if rows == [] then table else Upserts(table[Join(rows[0].path) := Some(rows[0].value)], rows[1..])
  }

  ghost predicate Lists<T(!new)>(s: seq<T>, of: set<T>) {
    && (forall x :: x in of <==> x in s)
    && forall i, j :: 0 <= i < j < |s| ==> s[i] != s[j]
  }

  function AllRows(codec: Codec, p: LibraryPreferences, locations: seq<Uuid>, tags: seq<Uuid>): seq<Row>
    requires (forall id :: id in locations ==> id in p.location) && (forall id :: id in tags ==> id in p.tag)
  {
    ToRows(codec, "location", p.location, locations) + ToRows(codec, "tag", p.tag, tags)
  }

  /** `write`. */
  function Write(codec: Codec, table: Table, p: LibraryPreferences, locations: seq<Uuid>, tags: seq<Uuid>): Table
    requires (forall id :: id in locations ==> id in p.location) && (forall id :: id in tags ==> id in p.tag)
  {
    Upserts(table, AllRows(codec, p, locations, tags))
  }

  /* ----- reading ----- */

  /** The rows that can be decoded, in the order they are found. */
  function Decodable(codec: Codec, table: Table, keys: seq<string>): seq<Row>
    requires forall key :: key in keys ==> key in table
  {
    if keys == [] then []
    else
      var value := table[keys[0]];
      (if value.Some? && codec.reread(value.value).Some? then [Row(Split(keys[0]), codec.reread(value.value).value)] else [])
      + Decodable(codec, table, keys[1..])
  }

  function ParseUuid(codec: Codec, s: string): Option<Uuid> {
    if |s| == 32 && AllHex(s) then
      DecodeParity(s);
      Some(HexDecode(s).value)
    else codec.otherUuid(s)
  }

  /** The settings of one map, in the order of its keys; `None` is a panic. */
  function FromEntries(codec: Codec, entries: Entries, keys: seq<string>): Option<map<Uuid, Settings>>
    requires forall key :: key in keys ==> key in entries
  {
    if keys == [] then Some(map[])
    else
      var key := keys[|keys| - 1];
      match FromEntries(codec, entries, keys[..|keys| - 1])
      case None => None
      case Some(settings) =>
        var id := ParseUuid(codec, key);
        if id.None? then Some(settings)
        else if entries[key].Nested? || codec.decode(entries[key].value).None? then None
        else Some(settings[id.value := codec.decode(entries[key].value).value])
  }

  /** The order of a sorted map's keys is a parameter. */
  type KeyOrder = set<string> -> seq<string>

  ghost predicate Orders(order: KeyOrder) {
    forall keys :: Lists(order(keys), keys)
  }

  function Branch(codec: Codec, order: KeyOrder, entries: Entries, kind: string): Option<map<Uuid, Settings>>
    requires Orders(order)
  {
    if kind !in entries then Some(map[])
    else if entries[kind].Leaf? then None
    else
      var below := entries[kind].entries;
      FromEntries(codec, below, order(below.Keys))
  }

  /** `read`; `None` is a panic. */
  function Read(codec: Codec, order: KeyOrder, table: Table, keys: seq<string>): Option<LibraryPreferences>
    requires Orders(order) && Lists(keys, table.Keys)
  {
    match Build(Decodable(codec, table, keys))
    case None => None
    case Some(entries) =>
      var location, tag := Branch(codec, order, entries, "location"), Branch(codec, order, entries, "tag");
      if location.None? || tag.None? then None else Some(LibraryPreferences(location.value, tag.value))
  }

  /* ----- when reading panics ----- */

  ghost predicate BadEntry(codec: Codec, entries: Entries, key: string) {
    && key in entries && ParseUuid(codec, key).Some?
    && (entries[key].Nested? || codec.decode(entries[key].value).None?)
  }

  lemma {:induction false} FromEntriesFailsExactly(codec: Codec, entries: Entries, keys: seq<string>)
    requires forall key :: key in keys ==> key in entries
    ensures FromEntries(codec, entries, keys).None? <==> exists key :: key in keys && BadEntry(codec, entries, key)
    decreases |keys|
  {
    if keys != [] {
      var front, last := keys[..|keys| - 1], keys[|keys| - 1];
      assert keys == front + [last];
      FromEntriesFailsExactly(codec, entries, front);
      assert last in keys && forall key :: key in keys <==> key in front || key == last;
      assert FromEntries(codec, entries, keys).None? <==> FromEntries(codec, entries, front).None? || BadEntry(codec, entries, last);
    }
  }

  /** The rows leave a value that cannot be decoded, or further rows, under an id of one of the maps. */
  ghost predicate BadId(codec: Codec, rows: seq<Row>, kind: string, key: string) {
    && ParseUuid(codec, key).Some?
    && var value := Latest(rows, [kind, key]);
       || (value.Some? && codec.decode(value.value).None?)
       || exists q: Path :: ProperPrefix([kind, key], q) && Latest(rows, q).Some?
  }

  /** The rows leave a value in the place of a whole map, or something bad in it. */
  ghost predicate BadKind(codec: Codec, rows: seq<Row>, kind: string) {
    Latest(rows, [kind]).Some? || exists key :: BadId(codec, rows, kind, key)
  }

  lemma BadEntryExactly(codec: Codec, rows: seq<Row>, kind: string, key: string)
    requires Build(rows).Some? && kind in Build(rows).value && Build(rows).value[kind].Nested?
    ensures BadEntry(codec, Build(rows).value[kind].entries, key) <==> BadId(codec, rows, kind, key)
  {
    var entries, path := Build(rows).value, [kind, key];
    assert path[1..] == [key];
    LookupIsLatest(rows, path);
    NestedExactly(rows, path);
    hide Build, ParseUuid, Latest;
  }

  lemma BranchFailsExactly(codec: Codec, order: KeyOrder, rows: seq<Row>, kind: string)
    requires Orders(order) && Build(rows).Some?
    ensures Branch(codec, order, Build(rows).value, kind).None? <==> BadKind(codec, rows, kind)
  {
    var entries := Build(rows).value;
    LookupIsLatest(rows, [kind]);
    if kind in entries && entries[kind].Nested? {
      var below := entries[kind].entries;
      assert Lists(order(below.Keys), below.Keys);
      FromEntriesFailsExactly(codec, below, order(below.Keys));
      forall key ensures BadEntry(codec, below, key) <==> BadId(codec, rows, kind, key) {
        BadEntryExactly(codec, rows, kind, key);
      }
    } else {
      forall key ensures !BadId(codec, rows, kind, key) {
        NothingBelow(codec, rows, kind, key);
      }
    }
  }

  lemma NothingBelow(codec: Codec, rows: seq<Row>, kind: string, key: string)
    requires Build(rows).Some? && (kind !in Build(rows).value || Build(rows).value[kind].Leaf?)
    ensures !BadId(codec, rows, kind, key)
  {
    LookupIsLatest(rows, [kind, key]);
    NestedExactly(rows, [kind, key]);
    hide Build, ParseUuid, Latest;
  }

  /**
   Reading panics, on any table at all, exactly if a row's key is a proper prefix of a later one's, or
   the rows leave something that is not a setting in the place of a map or under an id.
   */
  lemma ReadPanicsExactly(codec: Codec, order: KeyOrder, table: Table, keys: seq<string>)
    requires Orders(order) && Lists(keys, table.Keys)
    ensures var rows := Decodable(codec, table, keys);
            Read(codec, order, table, keys).None? <==> Clash(rows) || BadKind(codec, rows, "location") || BadKind(codec, rows, "tag")
  {
    var rows := Decodable(codec, table, keys);
    BuildFailsExactly(rows);
    if Build(rows).Some? {
      BranchFailsExactly(codec, order, rows, "location");
      BranchFailsExactly(codec, order, rows, "tag");
    }
  }

  /* ----- the keys that are written ----- */

  const KINDS: set<string> := {"location", "tag"}

  function KeyText(kind: string, id: Uuid): string {
    Join([kind, HexEncode(id)])
  }

  lemma IdText(codec: Codec, id: Uuid)
    ensures Dotless(HexEncode(id)) && ParseUuid(codec, HexEncode(id)) == Some(id)
  {
    HexRoundTrip(id, false);
    var s := HexEncode(id);
    assert AllHex(s);
    assert forall i :: 0 <= i < |s| ==> IsHexDigit(s[i]) && s[i] != '.';
  }

  lemma KindsAreDotless(kind: string)
    requires kind in KINDS
    ensures Dotless(kind)
  {
  }

  /** The key of a setting determines its map and its id. */
  lemma KeyPath(codec: Codec, kind: string, id: Uuid)
    requires kind in KINDS
    ensures Split(HexEncode(id)) == [HexEncode(id)] && Split(KeyText(kind, id)) == [kind, HexEncode(id)]
  {
    IdText(codec, id);
    KindsAreDotless(kind);
    SplitDotless(HexEncode(id));
    SplitOfJoin([kind, HexEncode(id)]);
  }

  /** The key of a setting: the name of its map, a dot, and the 32 lower-case digits of its id, high ones first. */
  lemma KeyTextIs(kind: string, id: Uuid)
    ensures KeyText(kind, id) == kind + "." + HexEncode(id) && |HexEncode(id)| == 32
    ensures forall k :: 0 <= k < 16 ==>
              HexEncode(id)[2 * k] == DigitChar(id[k] / 16) && HexEncode(id)[2 * k + 1] == DigitChar(id[k] % 16)
  {
    assert [kind, HexEncode(id)][1..] == [HexEncode(id)] && Join([HexEncode(id)]) == HexEncode(id);
    assert Join([kind, HexEncode(id)]) == kind + "." + Join([HexEncode(id)]);
    forall k | 0 <= k < 16
      ensures HexEncode(id)[2 * k] == DigitChar(id[k] / 16) && HexEncode(id)[2 * k + 1] == DigitChar(id[k] % 16)
    {
      HexDigits(id, k);
    }
  }

  lemma KeysAreDistinct(codec: Codec, kind: string, id: Uuid, kind': string, id': Uuid)
    requires kind in KINDS && kind' in KINDS && KeyText(kind, id) == KeyText(kind', id')
    ensures kind == kind' && id == id'
  {
    KeyPath(codec, kind, id);
    KeyPath(codec, kind', id');
    IdText(codec, id);
    IdText(codec, id');
    assert [kind, HexEncode(id)][1] == [kind', HexEncode(id')][1];
    assert [kind, HexEncode(id)][0] == [kind', HexEncode(id')][0];
  }

  ghost predicate IsKey(key: string) {
    exists kind, id: Uuid :: kind in KINDS && key == KeyText(kind, id)
  }

  /** A stored value is null, or unreadable and skipped, or a setting. */
  predicate ValueOk(codec: Codec, value: Option<Blob>) {
    value.Some? && codec.reread(value.value).Some? ==> codec.decode(codec.reread(value.value).value).Some?
  }

  ghost predicate Canonical(codec: Codec, table: Table) {
    forall key :: key in table ==> IsKey(key) && ValueOk(codec, table[key])
  }

  /** The setting that a table holds for an id. */
  function At(codec: Codec, table: Table, kind: string, id: Uuid): Option<Settings> {
    var key := KeyText(kind, id);
    if key !in table || table[key].None? || codec.reread(table[key].value).None? then None
    else codec.decode(codec.reread(table[key].value).value)
  }

  /* ----- reading a table ----- */

  ghost predicate FromKey(codec: Codec, table: Table, key: string, r: Row) {
    && key in table && table[key].Some?
    && codec.reread(table[key].value) == Some(r.value) && r.path == Split(key)
  }

  lemma {:induction false} DecodableRows(codec: Codec, table: Table, keys: seq<string>, r: Row)
    requires forall key :: key in keys ==> key in table
    ensures r in Decodable(codec, table, keys) <==> exists key :: key in keys && FromKey(codec, table, key, r)
    decreases |keys|
  {
    if keys != [] {
      assert keys == [keys[0]] + keys[1..];
      DecodableRows(codec, table, keys[1..], r);
      var tail := Decodable(codec, table, keys[1..]);
      assert r in Decodable(codec, table, keys) <==> r in tail || FromKey(codec, table, keys[0], r);
      if key :| key in keys && FromKey(codec, table, key, r) {
        assert key == keys[0] || key in keys[1..];
      }
    }
  }

  lemma DecodableFrom(codec: Codec, table: Table, keys: seq<string>, r: Row) returns (key: string, kind: string, id: Uuid)
    requires Canonical(codec, table) && (forall key :: key in keys ==> key in table)
    requires r in Decodable(codec, table, keys)
    ensures key in keys && FromKey(codec, table, key, r) && key == Join(r.path)
    ensures kind in KINDS && key == KeyText(kind, id) && r.path == [kind, HexEncode(id)]
  {
    DecodableRows(codec, table, keys, r);
    key :| key in keys && FromKey(codec, table, key, r);
    assert IsKey(key);
    kind, id :| kind in KINDS && key == KeyText(kind, id);
    KeyPath(codec, kind, id);
  }

  /** The rows of a canonical table have paths of two parts, and none leads to another. */
  lemma DecodableIsAntichain(codec: Codec, table: Table, keys: seq<string>)
    requires Canonical(codec, table) && forall key :: key in keys ==> key in table
    ensures var rows := Decodable(codec, table, keys); Antichain(rows) && forall r :: r in rows ==> |r.path| == 2
  {
    var rows := Decodable(codec, table, keys);
    forall r | r in rows ensures |r.path| == 2 {
      var _, _, _ := DecodableFrom(codec, table, keys, r);
    }
    forall r, s | r in rows && s in rows && r != s ensures Apart(r.path, s.path) {
      var key, _, _ := DecodableFrom(codec, table, keys, r);
      var other, _, _ := DecodableFrom(codec, table, keys, s);
      hide *;
      SamePathSameRow(codec, table, key, r, other, s);
    }
  }

  lemma SamePathSameRow(codec: Codec, table: Table, key: string, r: Row, other: string, s: Row)
    requires FromKey(codec, table, key, r) && FromKey(codec, table, other, s) && r != s
    requires key == Join(r.path) && other == Join(s.path) && |r.path| == |s.path|
    ensures Apart(r.path, s.path)
  {
    assert r.path != s.path;
    assert r.path[..|r.path|] == r.path && s.path[..|s.path|] == s.path;
  }

  ghost predicate TwoDeep(entries: Entries) {
    forall kind :: kind in entries ==>
      entries[kind].Nested? && forall key :: key in entries[kind].entries ==> entries[kind].entries[key].Leaf?
  }

  lemma InsertTwoDeep(entries: Entries, path: Path, value: Blob)
    requires TwoDeep(entries) && |path| == 2 && Insert(entries, path, value).Some?
    ensures TwoDeep(Insert(entries, path, value).value)
  {
  }

  lemma {:induction false} TreeIsTwoDeep(rows: seq<Row>)
    requires Build(rows).Some? && forall r :: r in rows ==> |r.path| == 2
    ensures TwoDeep(Build(rows).value)
    decreases |rows|
  {
    if rows != [] {
      var front, last := rows[..|rows| - 1], rows[|rows| - 1];
      assert rows == front + [last] && last in rows;
      TreeIsTwoDeep(front);
      InsertTwoDeep(Build(front).value, last.path, last.value);
    }
  }

  ghost predicate EntryOk(codec: Codec, entries: Entries, key: string) {
    && key in entries && entries[key].Leaf? && codec.decode(entries[key].value).Some?
    && exists id: Uuid :: key == HexEncode(id)
  }

  /** Entries whose keys are ids in the written form are all collected. */
  lemma {:induction false} FromEntriesExactly(codec: Codec, entries: Entries, keys: seq<string>, id: Uuid)
    requires forall key :: key in keys ==> key in entries && EntryOk(codec, entries, key)
    ensures var m := FromEntries(codec, entries, keys);
            && m.Some? && (id in m.value <==> HexEncode(id) in keys)
            && (id in m.value ==> EntryOk(codec, entries, HexEncode(id)) && Some(m.value[id]) == codec.decode(entries[HexEncode(id)].value))
    decreases |keys|
  {
    if keys != [] {
      var front, key := keys[..|keys| - 1], keys[|keys| - 1];
      assert keys == front + [key];
      FromEntriesExactly(codec, entries, front, id);
      assert EntryOk(codec, entries, key);
      var own: Uuid :| key == HexEncode(own);
      IdText(codec, own);
      IdText(codec, id);
    }
  }

  ghost predicate Means(codec: Codec, table: Table, kind: string, m: map<Uuid, Settings>) {
    forall id: Uuid :: (if id in m then Some(m[id]) else None) == At(codec, table, kind, id)
  }

  /** The row of a setting is there exactly if the table holds one that can be decoded. */
  lemma RowAt(codec: Codec, table: Table, keys: seq<string>, kind: string, id: Uuid, value: Blob)
    requires Canonical(codec, table) && Lists(keys, table.Keys) && kind in KINDS
    ensures Row([kind, HexEncode(id)], value) in Decodable(codec, table, keys)
            <==> FromKey(codec, table, KeyText(kind, id), Row([kind, HexEncode(id)], value))
  {
    var r := Row([kind, HexEncode(id)], value);
    KeyPath(codec, kind, id);
    DecodableRows(codec, table, keys, r);
    if r in Decodable(codec, table, keys) {
      var key, _, _ := DecodableFrom(codec, table, keys, r);
    }
  }

  /** What the tree of a canonical table holds for a setting. */
  lemma LeafAt(codec: Codec, table: Table, keys: seq<string>, entries: Entries, kind: string, id: Uuid)
    requires Canonical(codec, table) && Lists(keys, table.Keys) && kind in KINDS
    requires Build(Decodable(codec, table, keys)) == Some(entries)
    ensures var leaf := Lookup(entries, [kind, HexEncode(id)]);
            if leaf.Some? then At(codec, table, kind, id).Some? && codec.decode(leaf.value) == At(codec, table, kind, id)
            else At(codec, table, kind, id).None?
  {
    var rows, path, key := Decodable(codec, table, keys), [kind, HexEncode(id)], KeyText(kind, id);
    DecodableIsAntichain(codec, table, keys);
    ApartRowsAreFound(rows);
    hide Split, Join, Lookup, Build, Decodable, HexEncode, Antichain, IsKey, Lists;
    if Lookup(entries, path).Some? {
      var r :| r in rows && r.path == path;
      assert r == Row(path, r.value);
      RowAt(codec, table, keys, kind, id, r.value);
    }
    if key in table && table[key].Some? && codec.reread(table[key].value).Some? {
      KeyPath(codec, kind, id);
      RowAt(codec, table, keys, kind, id, codec.reread(table[key].value).value);
      assert ValueOk(codec, table[key]);
    }
  }

  lemma KeysBelow(codec: Codec, table: Table, keys: seq<string>, entries: Entries, kind: string, key: string)
    requires Canonical(codec, table) && Lists(keys, table.Keys)
    requires Build(Decodable(codec, table, keys)) == Some(entries) && TwoDeep(entries)
    requires kind in entries && key in entries[kind].entries
    ensures EntryOk(codec, entries[kind].entries, key)
  {
    var rows, path := Decodable(codec, table, keys), [kind, key];
    DecodableIsAntichain(codec, table, keys);
    ApartRowsAreFound(rows);
    assert path[1..] == [key];
    assert Lookup(entries, path) == Some(entries[kind].entries[key].value);
    var r :| r in rows && r.path == path;
    var text, kind', id := DecodableFrom(codec, table, keys, r);
    assert ValueOk(codec, table[text]);
    assert r.path[1] == HexEncode(id);
  }

  lemma BranchMeans(codec: Codec, order: KeyOrder, table: Table, keys: seq<string>, entries: Entries, kind: string)
    requires Orders(order) && Canonical(codec, table) && Lists(keys, table.Keys) && kind in KINDS
    requires Build(Decodable(codec, table, keys)) == Some(entries) && TwoDeep(entries)
    ensures var m := Branch(codec, order, entries, kind); m.Some? && Means(codec, table, kind, m.value)
  {
    var below := if kind in entries then entries[kind].entries else map[];
    var listed := order(below.Keys);
    assert Lists(listed, below.Keys);
    forall key | key in listed ensures key in below && EntryOk(codec, below, key) {
      KeysBelow(codec, table, keys, entries, kind, key);
    }
    var m := if kind in entries then FromEntries(codec, below, listed) else Some(map[]);
    if kind in entries {
      FromEntriesExactly(codec, below, listed, seq(16, _ => 0));
    }
    assert m == Branch(codec, order, entries, kind) && m.Some?;
    forall id: Uuid ensures (if id in m.value then Some(m.value[id]) else None) == At(codec, table, kind, id) {
      LeafAt(codec, table, keys, entries, kind, id);
      assert [kind, HexEncode(id)][1..] == [HexEncode(id)];
      if kind in entries {
        FromEntriesExactly(codec, below, listed, id);
      }
    }
  }

  /** Reading a canonical table never panics and gives back exactly the settings it holds, in whatever order the rows come. */
  lemma ReadMeans(codec: Codec, order: KeyOrder, table: Table, keys: seq<string>)
    requires Orders(order) && Canonical(codec, table) && Lists(keys, table.Keys)
    ensures var p := Read(codec, order, table, keys);
            p.Some? && Means(codec, table, "location", p.value.location) && Means(codec, table, "tag", p.value.tag)
  {
    var rows := Decodable(codec, table, keys);
    DecodableIsAntichain(codec, table, keys);
    ApartRowsAreFound(rows);
    TreeIsTwoDeep(rows);
    var entries := Build(rows).value;
    BranchMeans(codec, order, table, keys, entries, "location");
    BranchMeans(codec, order, table, keys, entries, "tag");
    hide *;
  }

  /* ----- reading what was written ----- */

  lemma {:induction false} RowsWritten(codec: Codec, kind: string, m: map<Uuid, Settings>, ids: seq<Uuid>, r: Row)
    requires kind in KINDS && forall id :: id in ids ==> id in m
    ensures r in ToRows(codec, kind, m, ids)
            <==> exists id :: id in ids && r == Row([kind, HexEncode(id)], codec.encode(m[id]))
    decreases |ids|
  {
    if ids != [] {
      assert ids == [ids[0]] + ids[1..];
      RowsWritten(codec, kind, m, ids[1..], r);
      KeyPath(codec, kind, ids[0]);
      var head := Row([kind, HexEncode(ids[0])], codec.encode(m[ids[0]]));
      assert ToRows(codec, kind, m, ids) == [head] + ToRows(codec, kind, m, ids[1..]);
      if id :| id in ids && r == Row([kind, HexEncode(id)], codec.encode(m[id])) {
        assert id == ids[0] || id in ids[1..];
      }
    }
  }

  ghost predicate OneRowPerKey(rows: seq<Row>) {
    forall r, s :: r in rows && s in rows && Join(r.path) == Join(s.path) ==> r == s
  }

  lemma {:induction false} UpsertsAt(table: Table, rows: seq<Row>, key: string)
    requires OneRowPerKey(rows)
    ensures var t := Upserts(table, rows);
            && (forall r :: r in rows && Join(r.path) == key ==> key in t && t[key] == Some(r.value))
            && ((forall r :: r in rows ==> Join(r.path) != key) ==> (key in t <==> key in table) && (key in table ==> t[key] == table[key]))
    decreases |rows|
  {
    if rows != [] {
      assert rows == [rows[0]] + rows[1..];
      assert OneRowPerKey(rows[1..]);
      UpsertsAt(table[Join(rows[0].path) := Some(rows[0].value)], rows[1..], key);
    }
  }

  ghost predicate WrittenRow(codec: Codec, p: LibraryPreferences, kind: string, id: Uuid, r: Row) {
    var m := if kind == "location" then p.location else p.tag;
    kind in KINDS && id in m && r == Row([kind, HexEncode(id)], codec.encode(m[id]))
  }

  /** The rows of one of the two maps. */
  lemma RowsOfKind(codec: Codec, p: LibraryPreferences, kind: string, ids: seq<Uuid>, r: Row)
    requires kind in KINDS && Lists(ids, if kind == "location" then p.location.Keys else p.tag.Keys)
    ensures r in ToRows(codec, kind, if kind == "location" then p.location else p.tag, ids)
            <==> exists id: Uuid :: WrittenRow(codec, p, kind, id, r)
  {
    var m := if kind == "location" then p.location else p.tag;
    RowsWritten(codec, kind, m, ids, r);
    hide ToRows, HexEncode;
    if id :| id in ids && r == Row([kind, HexEncode(id)], codec.encode(m[id])) {
      assert WrittenRow(codec, p, kind, id, r);
    }
    if id: Uuid :| WrittenRow(codec, p, kind, id, r) {
      assert id in ids;
    }
  }

  lemma RowIsWritten(codec: Codec, p: LibraryPreferences, locations: seq<Uuid>, tags: seq<Uuid>, r: Row)
    requires Lists(locations, p.location.Keys) && Lists(tags, p.tag.Keys)
    ensures r in AllRows(codec, p, locations, tags) <==> exists kind, id: Uuid :: WrittenRow(codec, p, kind, id, r)
  {
    RowsOfKind(codec, p, "location", locations, r);
    RowsOfKind(codec, p, "tag", tags, r);
    hide ToRows, Lists;
    if kind, id: Uuid :| WrittenRow(codec, p, kind, id, r) {
      assert kind == "location" || kind == "tag";
    }
  }

  lemma RowsHaveOwnKeys(codec: Codec, p: LibraryPreferences, locations: seq<Uuid>, tags: seq<Uuid>)
    requires Lists(locations, p.location.Keys) && Lists(tags, p.tag.Keys)
    ensures OneRowPerKey(AllRows(codec, p, locations, tags))
  {
    var rows := AllRows(codec, p, locations, tags);
    forall r, s | r in rows && s in rows && Join(r.path) == Join(s.path) ensures r == s {
      RowIsWritten(codec, p, locations, tags, r);
      RowIsWritten(codec, p, locations, tags, s);
      hide AllRows, Join, HexEncode, Lists;
      var kind, id: Uuid :| WrittenRow(codec, p, kind, id, r);
      var kind', id': Uuid :| WrittenRow(codec, p, kind', id', s);
      KeysAreDistinct(codec, kind, id, kind', id');
    }
  }

  /** What a write does to the row of one setting. */
  lemma WriteAt(codec: Codec, table: Table, p: LibraryPreferences, locations: seq<Uuid>, tags: seq<Uuid>, kind: string, id: Uuid)
    requires Lists(locations, p.location.Keys) && Lists(tags, p.tag.Keys) && kind in KINDS
    ensures var t, key := Write(codec, table, p, locations, tags), KeyText(kind, id);
            var m := if kind == "location" then p.location else p.tag;
            if id in m then key in t && t[key] == Some(codec.encode(m[id]))
            else (key in t <==> key in table) && (key in table ==> t[key] == table[key])
  {
    var rows := AllRows(codec, p, locations, tags);
    RowsHaveOwnKeys(codec, p, locations, tags);
    var m := if kind == "location" then p.location else p.tag;
    var key := KeyText(kind, id);
    UpsertsAt(table, rows, key);
    hide AllRows, Join, HexEncode, Lists, Upserts;
    if id in m {
      var r := Row([kind, HexEncode(id)], codec.encode(m[id]));
      assert WrittenRow(codec, p, kind, id, r);
      RowIsWritten(codec, p, locations, tags, r);
      assert r in rows && Join(r.path) == key;
    } else {
      forall r | r in rows ensures Join(r.path) != key {
        RowIsWritten(codec, p, locations, tags, r);
        var kind', id' :| WrittenRow(codec, p, kind', id', r);
        if Join(r.path) == key {
          KeysAreDistinct(codec, kind, id, kind', id');
        }
      }
    }
  }

  lemma WriteKeepsCanonical(codec: Codec, table: Table, p: LibraryPreferences, locations: seq<Uuid>, tags: seq<Uuid>)
    requires Inverts(codec) && Canonical(codec, table)
    requires Lists(locations, p.location.Keys) && Lists(tags, p.tag.Keys)
    ensures Canonical(codec, Write(codec, table, p, locations, tags))
  {
    var t, rows := Write(codec, table, p, locations, tags), AllRows(codec, p, locations, tags);
    RowsHaveOwnKeys(codec, p, locations, tags);
    forall key | key in t ensures IsKey(key) && ValueOk(codec, t[key]) {
      UpsertsAt(table, rows, key);
      hide AllRows, Join, HexEncode, Lists, Upserts;
      if r :| r in rows && Join(r.path) == key {
        RowIsWritten(codec, p, locations, tags, r);
        var kind, id: Uuid :| WrittenRow(codec, p, kind, id, r);
        assert key == KeyText(kind, id);
      }
    }
  }

  lemma SettingAfterWrite(codec: Codec, table: Table, p: LibraryPreferences, locations: seq<Uuid>, tags: seq<Uuid>, kind: string, id: Uuid)
    requires Inverts(codec) && Lists(locations, p.location.Keys) && Lists(tags, p.tag.Keys) && kind in KINDS
    ensures var m := if kind == "location" then p.location else p.tag;
            At(codec, Write(codec, table, p, locations, tags), kind, id)
            == if id in m then Some(m[id]) else At(codec, table, kind, id)
  {
    WriteAt(codec, table, p, locations, tags, kind, id);
    hide Write, KeyText;
  }

  /**
   Writing preferences and reading them back, in any order of the rows and from any table that earlier
   writes can have left, gives the old preferences overridden by the written ones.
   */
  lemma ReadAfterWrite(
      codec: Codec, order: KeyOrder, table: Table, before: seq<string>,
      p: LibraryPreferences, locations: seq<Uuid>, tags: seq<Uuid>, after: seq<string>)
    requires Inverts(codec) && Orders(order) && Canonical(codec, table) && Lists(before, table.Keys)
    requires Lists(locations, p.location.Keys) && Lists(tags, p.tag.Keys)
    requires Lists(after, Write(codec, table, p, locations, tags).Keys)
    ensures var t := Write(codec, table, p, locations, tags);
            var old', new' := Read(codec, order, table, before), Read(codec, order, t, after);
            && Canonical(codec, t) && old'.Some?
            && new' == Some(LibraryPreferences(old'.value.location + p.location, old'.value.tag + p.tag))
  {
    var t := Write(codec, table, p, locations, tags);
    WriteKeepsCanonical(codec, table, p, locations, tags);
    ReadMeans(codec, order, table, before);
    ReadMeans(codec, order, t, after);
    hide Read, At, Means, Canonical, Orders;
    var x, y := Read(codec, order, table, before).value, Read(codec, order, t, after).value;
    forall id: Uuid
      ensures At(codec, t, "location", id) == if id in p.location then Some(p.location[id]) else At(codec, table, "location", id)
      ensures At(codec, t, "tag", id) == if id in p.tag then Some(p.tag[id]) else At(codec, table, "tag", id)
    {
      SettingAfterWrite(codec, table, p, locations, tags, "location", id);
      SettingAfterWrite(codec, table, p, locations, tags, "tag", id);
    }
    hide *;
    MergedExactly(codec, table, t, "location", x.location, p.location, y.location);
    MergedExactly(codec, table, t, "tag", x.tag, p.tag, y.tag);
  }

  lemma MergedExactly(
      codec: Codec, table: Table, t: Table, kind: string, m: map<Uuid, Settings>, extra: map<Uuid, Settings>, merged: map<Uuid, Settings>)
    requires Means(codec, table, kind, m) && Means(codec, t, kind, merged)
    requires forall id: Uuid :: At(codec, t, kind, id) == if id in extra then Some(extra[id]) else At(codec, table, kind, id)
    ensures merged == m + extra
  {
    forall id: Uuid ensures (id in merged <==> id in m + extra) && (id in merged ==> merged[id] == (m + extra)[id]) {
      assert At(codec, t, kind, id) == if id in extra then Some(extra[id]) else At(codec, table, kind, id);
    }
  }
}
