/**
 A library on disk: its config file and its tables, changed in place by the migrations. The methods
 are the program's loops and branches, proved to compute the functions of `LibraryConfig`.
 */
module LibraryObject {
  import opened Outcomes
  import opened Bytes
  import opened LibraryConfig

  const BATCH: nat := 500

  /** The rows that still have a textual size. */
  ghost function Unconverted(paths: map<nat, Sizes>): set<nat> {
    set id | id in paths && paths[id].text.Some?
  }

  lemma SmallerWithout(a: set<nat>, b: set<nat>, x: nat)
    requires a <= b && x in b && x !in a
    ensures |a| < |b|
  {
    assert b == a + (b - a);
  }

  class Library {
    var file: File
    var rules: seq<Rule>
    var nodes: seq<Node>
    var instances: seq<Instance>
    var locations: seq<Location>
    var paths: map<nat, Sizes>
    var log: seq<nat>

    constructor (w: World)
      ensures View() == w
    {
      file, rules, nodes, instances, locations, paths, log := w.file, w.rules, w.nodes, w.instances, w.locations, w.paths, w.log;
    }

    function View(): World
      reads this
    {
      World(file, rules, nodes, instances, locations, paths, log)
    }

    /** The rows of one query: any of those with a textual size, up to the limit. */
    method FindSized(limit: nat) returns (found: seq<nat>)
      ensures |found| <= limit
      ensures forall i :: 0 <= i < |found| ==> found[i] in Unconverted(paths)
      ensures found == [] && limit > 0 ==> Unconverted(paths) == {}
    {
      found := [];
      var left := paths.Keys;
      while left != {} && |found| < limit
        invariant left <= paths.Keys && |found| <= limit
        invariant forall i :: 0 <= i < |found| ==> found[i] in Unconverted(paths)
        invariant found == [] ==> Unconverted(paths) <= left
        decreases left
      {
        var id :| id in left;
        left := left - {id};
        if paths[id].text.Some? {
          found := found + [id];
        }
      }
    }

    /** The migration to version 5: batch after batch until a query finds nothing. */
    method ConvertSizes()
      modifies this`paths
      ensures paths == ConvertedPaths(old(paths))
    {
      ghost var was := paths;
      while true
        invariant paths.Keys == was.Keys
        invariant forall id :: id in was ==> Converted(paths[id]) == Converted(was[id])
        decreases |Unconverted(paths)|
      {
        var found := FindSized(BATCH);
        if found == [] {
          break;
        }
        ghost var before := Unconverted(paths);
        for i := 0 to |found|
          invariant paths.Keys == was.Keys
          invariant forall id :: id in was ==> Converted(paths[id]) == Converted(was[id])
          invariant Unconverted(paths) <= before
          invariant forall j :: 0 <= j < i ==> found[j] !in Unconverted(paths)
        {
          var text := paths[found[i]].text;
          if text.Some? {
            var parsed := ParseU64(text.value);
            var size := if parsed.Some? then Some(BigEndian(parsed.value, 8)) else None;
            paths := paths[found[i] := Sizes(None, size)];
          }
        }
        SmallerWithout(Unconverted(paths), before, found[0]);
      }
      assert forall id :: id in was ==> id !in Unconverted(paths);
    }

    method ProtectRules()
      modifies this`rules
      ensures rules == ProtectedRules(old(rules), 4)
    {
      for i := 0 to 4
        invariant rules == ProtectedRules(old(rules), i)
      {
        var now := rules;
        rules := seq(|now|, j requires 0 <= j < |now| =>
          if now[j].name == Some(RULE_NAMES[i]) then now[j].(pubId := BigEndian(i, 16)) else now[j]);
      }
    }

    method SetKey(key: string, value: Value)
      requires file.Json?
      modifies this`file
      ensures file == Json(old(file.fields)[key := value])
    {
      file := Json(file.fields[key := value]);
    }

    /** The rows of the last migration's batch, prepared before any is written; `None` is a panic. */
    method Convert(keys: Keys) returns (rows: Option<seq<Instance>>)
      ensures rows == if AllRekeyable(keys, instances) then Some(RekeyAll(keys, instances)) else None
    {
      var converted: seq<Instance> := [];
      for i := 0 to |instances|
        invariant |converted| == i
        invariant forall j :: 0 <= j < i ==> Rekeyable(keys, instances[j]) && converted[j] == Rekey(keys, instances[j])
      {
        var instance := instances[i];
        if instance.identity.Some? {
          var columns := Rekeyed(keys, instance.identity.value);
          if columns.None? {
            assert !Rekeyable(keys, instances[i]);
            return None;
          }
          instance := instance.(identity := columns.value.identity, remoteIdentity := columns.value.remoteIdentity);
        }
        converted := converted + [instance];
      }
      assert AllRekeyable(keys, instances) && converted == RekeyAll(keys, instances);
      rows := Some(converted);
    }

    /** One migrator. */
    method MigrateStep(env: Env, v: nat) returns (error: Option<Error>)
      requires v < LATEST_VERSION && file.Json?
      modifies this
      ensures file.Json?
      ensures var r := Step(env, old(View()), v);
              if r.Ok? then error.None? && View() == r.value else error == Some(r.error) && View() == old(View())
    {
      error := None;
      match v {
        case 0 => ProtectRules();
        case 1 => SetKey("identity", Array(env.libraryIdentity));
        case 2 =>
          if |nodes| != 1 {
            return Some(TooManyNodes);
          }
          nodes := Claimed(env, nodes);
          SetKey("node_id", Text(env.nodeText));
        case 4 => ConvertSizes();
        case 5 =>
          if |nodes| > 1 {
            return Some(TooManyNodes);
          }
          instances := instances + [NewInstance(env, nodes)];
          file := Json(file.fields - {"node_id"} - {"identity"});
          SetKey("instance_id", Text(env.instanceText));
          assert file.fields == (old(file.fields) - {"node_id", "identity"})["instance_id" := Text(env.instanceText)];
        case 6 =>
          if |instances| > 1 {
            return Some(TooManyInstances);
          }
          if instances == [] {
            return Some(MissingInstance);
          }
          file := Json(file.fields - {"instance_id"});
          SetKey("instance_id", Number(instances[0].id));
          assert file.fields == old(file.fields)["instance_id" := Number(instances[0].id)];
          locations := Linked(locations, instances[0].id);
        case 7 =>
          if instances == [] {
            return Some(MissingInstance);
          }
          file := Json(file.fields - {"instance_id"});
          SetKey("instance_id", Number(instances[0].id));
          assert file.fields == old(file.fields)["instance_id" := Number(instances[0].id)];
        case 9 =>
          var converted := Convert(env.keys);
          if converted.None? {
            return Some(InvalidIdentity);
          }
          instances := converted.value;
        case _ =>
      }
    }

    /** The loop over pairs of versions. */
    method RunMigrations(env: Env, current: nat) returns (error: Option<Error>)
      requires current <= LATEST_VERSION && file.Json?
      modifies this
      ensures Migrate(env, old(View()), current, LATEST_VERSION) == Migrated(View(), error)
      ensures file.Json?
    {
      hide Step;
      for v := current to LATEST_VERSION
        invariant file.Json?
        invariant Migrate(env, old(View()), current, LATEST_VERSION) == Migrate(env, View(), v, LATEST_VERSION)
      {
        log := log + [v];
        error := MigrateStep(env, v);
        if error.Some? {
          return;
        }
      }
      error := None;
    }

    /** `migrate_and_load`. */
    method MigrateAndLoad(env: Env) returns (r: Result<Config, Error>)
      modifies this
      ensures Load(env, old(View())) == Loaded(View(), r)
    {
      hide Migrate, ReadConfig;
      var current := GetVersion(file);
      if current.Err? {
        return Err(current.error);
      }
      if current.value != LATEST_VERSION {
        var error := RunMigrations(env, current.value);
        if error.Some? {
          return Err(error.value);
        }
        SetKey("version", Number(LATEST_VERSION));
      }
      r := ReadConfig(file);
    }
  }
}
