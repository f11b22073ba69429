/**
 The tree that preference rows are read into: each row's key is a path of parts, and the rows are
 inserted one after another.
 */
module PreferenceTree {
  import opened Outcomes

  type Blob(==, !new)

  type Path = p: seq<string> | p != [] witness [""]

  datatype Entry = Leaf(value: Blob) | Nested(entries: Entries)

  type Entries = map<string, Entry>

  datatype Row = Row(path: Path, value: Blob)

  /** The walk down the parts; `None` is the arm that the program calls unreachable. */
  function Insert(entries: Entries, path: Path, value: Blob): Option<Entries>
    decreases |path|
  {
    if |path| == 1 then Some(entries[path[0] := Leaf(value)])
    else
      match (if path[0] in entries then entries[path[0]] else Nested(map[]))
      case Leaf(_) => None
      case Nested(below) =>
        match Insert(below, path[1..], value)
        case None => None
        case Some(below') => Some(entries[path[0] := Nested(below')])
  }

  function InsertRow(entries: Option<Entries>, row: Row): Option<Entries> {
    match entries
    case None => None
    case Some(entries) => Insert(entries, row.path, row.value)
  }

  /** The fold of `parse`. */
  function Build(rows: seq<Row>): Option<Entries> {
    if rows == [] then Some(map[]) else InsertRow(Build(rows[..|rows| - 1]), rows[|rows| - 1])
  }

  function Lookup(entries: Entries, path: Path): Option<Blob>
    decreases |path|
  {
    if path[0] !in entries then None
    else
      match entries[path[0]]
      case Leaf(value) => if |path| == 1 then Some(value) else None
      case Nested(below) => if |path| == 1 then None else Lookup(below, path[1..])
  }

  predicate Within(p: Path, q: Path) {
    |p| <= |q| && p == q[..|p|]
  }

  predicate ProperPrefix(p: Path, q: Path) {
    p != q && Within(p, q)
  }

  /* ----- one insertion ----- */

  ghost predicate Obstructed(entries: Entries, path: Path) {
    exists n :: 0 < n < |path| && Lookup(entries, path[..n]).Some?
  }

  /** An insertion fails exactly if there is a value on the way down. */
  lemma {:induction false} InsertFailsExactly(entries: Entries, path: Path, value: Blob)
    ensures Insert(entries, path, value).None? <==> Obstructed(entries, path)
    decreases |path|
  {
    if |path| > 1 {
      if path[0] in entries && entries[path[0]].Leaf? {
        assert Lookup(entries, path[..1]).Some?;
      } else {
        var below := if path[0] in entries then entries[path[0]].entries else map[];
        InsertFailsExactly(below, path[1..], value);
        if Obstructed(below, path[1..]) {
          var n :| 0 < n < |path[1..]| && Lookup(below, path[1..][..n]).Some?;
          assert path[..n + 1][1..] == path[1..][..n];
          assert Lookup(entries, path[..n + 1]).Some?;
        }
        if Obstructed(entries, path) {
          var n :| 0 < n < |path| && Lookup(entries, path[..n]).Some?;
          assert path[..n][1..] == path[1..][..n - 1];
          assert Lookup(below, path[1..][..n - 1]).Some?;
        }
      }
    }
  }

  /** What an insertion does to every path: it sets its own, clears those below it and leaves all others. */
  lemma {:induction false} InsertLooks(entries: Entries, path: Path, value: Blob, q: Path)
    requires Insert(entries, path, value).Some?
    ensures Lookup(Insert(entries, path, value).value, q)
            == if q == path then Some(value) else if ProperPrefix(path, q) then None else Lookup(entries, q)
    decreases |path|
  {
    if |path| > 1 && q[0] == path[0] {
      var below := if path[0] in entries then entries[path[0]].entries else map[];
      if |q| > 1 {
        InsertLooks(below, path[1..], value, q[1..]);
        assert path == [path[0]] + path[1..] && q == [q[0]] + q[1..];
        assert Within(path, q) <==> Within(path[1..], q[1..]) by {
          assert |path| <= |q| ==> q[..|path|] == [q[0]] + q[1..][..|path| - 1];
        }
      }
    }
  }

  /* ----- all the rows ----- */

  /** The value that a reader of the rows in order would keep for a path. */
  ghost function Latest(rows: seq<Row>, q: Path): Option<Blob> {
    if rows == [] then None
    else
      var last := rows[|rows| - 1];
      if last.path == q then Some(last.value) else if ProperPrefix(last.path, q) then None else Latest(rows[..|rows| - 1], q)
  }

  lemma {:induction false} LookupIsLatest(rows: seq<Row>, q: Path)
    requires Build(rows).Some?
    ensures Lookup(Build(rows).value, q) == Latest(rows, q)
    decreases |rows|
  {
    if rows != [] {
      var front, last := rows[..|rows| - 1], rows[|rows| - 1];
      LookupIsLatest(front, q);
      InsertLooks(Build(front).value, last.path, last.value, q);
    }
  }

  ghost predicate Clash(rows: seq<Row>) {
    exists i, j :: 0 <= i < j < |rows| && ProperPrefix(rows[i].path, rows[j].path)
  }

  lemma {:induction false} LatestComesFrom(rows: seq<Row>, q: Path) returns (i: nat)
    requires Latest(rows, q).Some?
    ensures i < |rows| && rows[i].path == q && Latest(rows, q) == Some(rows[i].value)
    decreases |rows|
  {
    i := |rows| - 1;
    if rows[i].path != q {
      i := LatestComesFrom(rows[..i], q);
    }
  }

  lemma {:induction false} PrefixLeavesValue(rows: seq<Row>, i: nat, path: Path) returns (n: nat)
    requires i < |rows| && ProperPrefix(rows[i].path, path)
    ensures 0 < n < |path| && Latest(rows, path[..n]).Some?
    decreases |rows|
  {
    var last := rows[|rows| - 1];
    if ProperPrefix(last.path, path) {
      n := |last.path|;
    } else {
      n := PrefixLeavesValue(rows[..|rows| - 1], i, path);
      assert Within(last.path, path[..n]) ==> ProperPrefix(last.path, path);
    }
  }

  lemma ClashSplits(rows: seq<Row>, last: Row)
    ensures Clash(rows + [last]) <==> Clash(rows) || exists i :: 0 <= i < |rows| && ProperPrefix(rows[i].path, last.path)
  {
    var all := rows + [last];
    if Clash(rows) {
      var i, j :| 0 <= i < j < |rows| && ProperPrefix(rows[i].path, rows[j].path);
      assert all[i] == rows[i] && all[j] == rows[j];
    }
    if i :| 0 <= i < |rows| && ProperPrefix(rows[i].path, last.path) {
      assert all[i] == rows[i] && all[|rows|] == last;
    }
    if Clash(all) {
      var i, j :| 0 <= i < j < |all| && ProperPrefix(all[i].path, all[j].path);
      assert all[i] == rows[i] && (j < |rows| ==> all[j] == rows[j]);
    }
  }

  lemma ObstructedExactly(rows: seq<Row>, path: Path)
    requires Build(rows).Some?
    ensures Obstructed(Build(rows).value, path) <==> exists i :: 0 <= i < |rows| && ProperPrefix(rows[i].path, path)
  {
    if Obstructed(Build(rows).value, path) {
      var n :| 0 < n < |path| && Lookup(Build(rows).value, path[..n]).Some?;
      LookupIsLatest(rows, path[..n]);
      var i := LatestComesFrom(rows, path[..n]);
      assert ProperPrefix(rows[i].path, path);
    }
    if i :| 0 <= i < |rows| && ProperPrefix(rows[i].path, path) {
      var n := PrefixLeavesValue(rows, i, path);
      LookupIsLatest(rows, path[..n]);
    }
  }

  /** The unreachable arm is reached exactly if some row's key is a proper prefix of a later row's. */
  lemma {:induction false} BuildFailsExactly(rows: seq<Row>)
    ensures Build(rows).None? <==> Clash(rows)
    decreases |rows|
  {
    if rows != [] {
      var front, last := rows[..|rows| - 1], rows[|rows| - 1];
      assert rows == front + [last];
      ClashSplits(front, last);
      BuildFailsExactly(front);
      if Build(front).Some? {
        InsertFailsExactly(Build(front).value, last.path, last.value);
        ObstructedExactly(front, last.path);
      }
    }
  }

  /* ----- branches ----- */

  /** The path leads to a nested map. */
  predicate NestedAt(entries: Entries, path: Path)
    decreases |path|
  {
    path[0] in entries && entries[path[0]].Nested? && (|path| == 1 || NestedAt(entries[path[0]].entries, path[1..]))
  }

  /** An insertion makes branches of its own prefixes, and replaces what was at its path or below. */
  lemma {:induction false} InsertNests(entries: Entries, path: Path, value: Blob, p: Path)
    requires Insert(entries, path, value).Some?
    ensures NestedAt(Insert(entries, path, value).value, p) <==> ProperPrefix(p, path) || (NestedAt(entries, p) && !Within(path, p))
    decreases |path|
  {
    assert path == [path[0]] + path[1..] && p == [p[0]] + p[1..];
    if |path| > 1 && p[0] == path[0] && |p| > 1 {
      var below := if path[0] in entries then entries[path[0]].entries else map[];
      InsertNests(below, path[1..], value, p[1..]);
      assert |p| <= |path| ==> path[..|p|] == [path[0]] + path[1..][..|p| - 1];
      assert |path| <= |p| ==> p[..|path|] == [p[0]] + p[1..][..|path| - 1];
    }
  }

  lemma {:induction false} ValueBelowNests(entries: Entries, p: Path, q: Path)
    requires ProperPrefix(p, q) && Lookup(entries, q).Some?
    ensures NestedAt(entries, p)
    decreases |p|
  {
    assert p[0] == q[0];
    if |p| > 1 {
      assert p[1..] == q[1..][..|p| - 1];
      ValueBelowNests(entries[p[0]].entries, p[1..], q[1..]);
    }
  }

  /** Every branch of a rebuilt tree leads to a value. */
  lemma {:induction false} NestedExactly(rows: seq<Row>, p: Path)
    requires Build(rows).Some?
    ensures NestedAt(Build(rows).value, p) <==> exists q: Path :: ProperPrefix(p, q) && Latest(rows, q).Some?
    decreases |rows|
  {
    var entries := Build(rows).value;
    if q: Path :| ProperPrefix(p, q) && Latest(rows, q).Some? {
      LookupIsLatest(rows, q);
      ValueBelowNests(entries, p, q);
    }
    if NestedAt(entries, p) {
      var q := SomeValueBelow(rows, p);
    }
  }

  lemma {:induction false} SomeValueBelow(rows: seq<Row>, p: Path) returns (q: Path)
    requires Build(rows).Some? && NestedAt(Build(rows).value, p)
    ensures ProperPrefix(p, q) && Latest(rows, q).Some?
    decreases |rows|
  {
    var front, last := rows[..|rows| - 1], rows[|rows| - 1];
    InsertNests(Build(front).value, last.path, last.value, p);
    if ProperPrefix(p, last.path) {
      q := last.path;
    } else {
      q := SomeValueBelow(front, p);
      Comparable(last.path, p, q);
    }
  }

  /** Two prefixes of one path are comparable. */
  lemma Comparable(r: Path, p: Path, q: Path)
    requires Within(p, q)
    ensures Within(r, q) ==> Within(r, p) || ProperPrefix(p, r)
  {
    if |r| <= |p| {
      assert q[..|p|][..|r|] == q[..|r|];
    } else if |r| <= |q| {
      assert q[..|r|][..|p|] == q[..|p|];
    }
  }

  predicate Apart(p: Path, q: Path) {
    !Within(p, q) && !Within(q, p)
  }

  /** Distinct rows have paths of which none leads to another. */
  ghost predicate Antichain(rows: seq<Row>) {
    forall r, s :: r in rows && s in rows && r != s ==> Apart(r.path, s.path)
  }

  /** Rows whose keys are apart are all there, and nothing else is. */
  lemma {:induction false} ApartRowsAreFound(rows: seq<Row>)
    requires Antichain(rows)
    ensures Build(rows).Some?
    ensures forall r :: r in rows ==> Lookup(Build(rows).value, r.path) == Some(r.value)
    ensures forall q: Path :: Lookup(Build(rows).value, q).Some? ==> exists r :: r in rows && r.path == q
  {
    BuildFailsExactly(rows);
    forall r | r in rows ensures Lookup(Build(rows).value, r.path) == Some(r.value) {
      LookupIsLatest(rows, r.path);
      LatestOfMember(rows, r);
    }
    forall q: Path | Lookup(Build(rows).value, q).Some? ensures exists r :: r in rows && r.path == q {
      LookupIsLatest(rows, q);
      var i := LatestComesFrom(rows, q);
      assert rows[i] in rows;
    }
  }

  lemma {:induction false} LatestOfMember(rows: seq<Row>, r: Row)
    requires Antichain(rows) && r in rows
    ensures Latest(rows, r.path) == Some(r.value)
    decreases |rows|
  {
    var last := rows[|rows| - 1];
    assert rows == rows[..|rows| - 1] + [last];
    if last != r {
      LatestOfMember(rows[..|rows| - 1], r);
    }
  }

  /* ----- the order of the rows ----- */

  /** An insertion reads and changes only what is under the first part. */
  lemma InsertIsLocal(a: Entries, b: Entries, path: Path, value: Blob)
    requires (path[0] in a <==> path[0] in b) && (path[0] in a ==> a[path[0]] == b[path[0]])
    ensures var x, y := Insert(a, path, value), Insert(b, path, value);
            && (x.Some? <==> y.Some?)
            && (x.Some? ==> path[0] in x.value && path[0] in y.value && x.value[path[0]] == y.value[path[0]]
                            && x.value == a[path[0] := x.value[path[0]]] && y.value == b[path[0] := x.value[path[0]]])
  {
  }

  function InsertTwice(entries: Entries, p: Path, v: Blob, q: Path, w: Blob): Option<Entries> {
    InsertRow(Insert(entries, p, v), Row(q, w))
  }

  lemma {:induction false} InsertsCommute(entries: Entries, p: Path, v: Blob, q: Path, w: Blob)
    requires Apart(p, q)
    ensures InsertTwice(entries, p, v, q, w) == InsertTwice(entries, q, w, p, v)
    decreases |p|
  {
    var a, b := Insert(entries, p, v), Insert(entries, q, w);
    if p[0] != q[0] {
      if a.Some? {
        InsertIsLocal(entries, entries, p, v);
        InsertIsLocal(entries, a.value, q, w);
      }
      if b.Some? {
        InsertIsLocal(entries, entries, q, w);
        InsertIsLocal(entries, b.value, p, v);
      }
      hide Insert;
      if a.Some? && b.Some? {
        assert a.value[q[0] := b.value[q[0]]] == b.value[p[0] := a.value[p[0]]];
      }
    } else {
      assert p == [p[0]] + p[1..] && q == [q[0]] + q[1..];
      var below := if p[0] in entries && entries[p[0]].Nested? then entries[p[0]].entries else map[];
      InsertsCommute(below, p[1..], v, q[1..], w);
      InsertUnder(entries, p, v, q, w);
      InsertUnder(entries, q, w, p, v);
    }
  }

  lemma InsertUnder(entries: Entries, p: Path, v: Blob, q: Path, w: Blob)
    requires |p| > 1 && |q| > 1 && p[0] == q[0]
    ensures var below := if p[0] in entries && entries[p[0]].Nested? then entries[p[0]].entries else map[];
            var deep := InsertTwice(below, p[1..], v, q[1..], w);
            InsertTwice(entries, p, v, q, w)
            == if (p[0] in entries && entries[p[0]].Leaf?) || deep.None? then None else Some(entries[p[0] := Nested(deep.value)])
  {
    var below := if p[0] in entries && entries[p[0]].Nested? then entries[p[0]].entries else map[];
    var a := Insert(below, p[1..], v);
    if a.Some? {
      var b := Insert(a.value, q[1..], w);
      if b.Some? {
        assert entries[p[0] := Nested(a.value)][p[0] := Nested(b.value)] == entries[p[0] := Nested(b.value)];
      }
    }
  }

  lemma BuildLast(rows: seq<Row>, r: Row)
    ensures Build(rows + [r]) == InsertRow(Build(rows), r)
  {
    assert (rows + [r])[..|rows|] == rows;
  }

  lemma BuildPair(rows: seq<Row>, r: Row, s: Row)
    requires r == s || Apart(r.path, s.path)
    ensures Build(rows + [r] + [s]) == Build(rows + [s] + [r])
  {
    BuildLast(rows, r);
    BuildLast(rows, s);
    BuildLast(rows + [r], s);
    BuildLast(rows + [s], r);
    if r != s && Build(rows).Some? {
      InsertsCommute(Build(rows).value, r.path, r.value, s.path, s.value);
    }
    hide Build, Insert;
  }

  lemma {:induction false} RowMovesToEnd(a: seq<Row>, r: Row, b: seq<Row>)
    requires Antichain(a + [r] + b)
    ensures Build(a + [r] + b) == Build(a + b + [r])
    decreases |b|
  {
    if b == [] {
      assert a + [r] + b == a + b + [r];
    } else {
      var front, last := b[..|b| - 1], b[|b| - 1];
      var rows := a + [r] + b;
      assert rows == (a + [r] + front) + [last] && a + b == (a + front) + [last];
      assert r in rows && last in rows;
      assert forall x :: x in a + [r] + front ==> x in rows;
      RowMovesToEnd(a, r, front);
      BuildPair(a + front, r, last);
      BuildLast(a + [r] + front, last);
      BuildLast(a + front + [r], last);
      hide Build;
      assert a + b + [r] == a + front + [last] + [r];
    }
  }

  lemma TakeOut(rows: seq<Row>, front: seq<Row>, last: Row, other: seq<Row>) returns (a: seq<Row>, b: seq<Row>)
    requires rows == front + [last] && multiset(rows) == multiset(other)
    ensures other == a + [last] + b && multiset(front) == multiset(a + b)
  {
    assert last in multiset(other);
    var i :| 0 <= i < |other| && other[i] == last;
    a, b := other[..i], other[i + 1..];
    assert other == a + [last] + b;
    assert multiset(rows) == multiset(front) + multiset{last};
    assert multiset(other) == multiset(a) + multiset{last} + multiset(b);
    assert multiset(a + b) == multiset(a) + multiset(b);
    forall x ensures multiset(front)[x] == multiset(a + b)[x] {
      assert multiset(rows)[x] == multiset(other)[x];
    }
  }

  lemma SameMembers(rows: seq<Row>, other: seq<Row>)
    requires Antichain(rows) && multiset(rows) == multiset(other)
    ensures Antichain(other)
  {
    assert forall x :: x in other ==> x in multiset(rows);
  }

  /** Rows that are apart can be read in any order: the tree is the same. */
  lemma {:induction false} OrderDoesNotMatter(rows: seq<Row>, other: seq<Row>)
    requires Antichain(rows) && multiset(rows) == multiset(other)
    ensures Build(rows) == Build(other)
    decreases |rows|
  {
    assert |rows| == |multiset(rows)| == |other|;
    if rows != [] {
      var front, last := rows[..|rows| - 1], rows[|rows| - 1];
      assert rows == front + [last];
      SameMembers(rows, other);
      var a, b := TakeOut(rows, front, last, other);
      RowMovesToEnd(a, last, b);
      OrderDoesNotMatter(front, a + b);
      BuildLast(front, last);
      BuildLast(a + b, last);
    }
  }
}
