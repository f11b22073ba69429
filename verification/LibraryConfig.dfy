/**
 Loading a library: the version in its config file decides which migrations run, each rewriting the
 file and the database, before the config is read.
 */
module LibraryConfig {
  import opened Outcomes
  import opened Bytes

  const LATEST_VERSION: nat := 10

  type I32 = n: int | -0x8000_0000 <= n < 0x8000_0000

  datatype Value = Null | Flag(b: bool) | Number(n: int) | Text(s: string) | Array(bytes: seq<byte>) | Other

  type Fields = map<string, Value>

  datatype File = Missing | Garbage | Json(fields: Fields)

  datatype Rule = Rule(name: Option<string>, pubId: seq<byte>)

  datatype Node = Node(pubId: seq<byte>, identity: Option<seq<byte>>, created: nat)

  datatype Instance = Instance(
    id: I32, pubId: seq<byte>, identity: Option<seq<byte>>, remoteIdentity: seq<byte>, nodeId: seq<byte>, lastSeen: nat, created: nat)

  datatype Location = Location(id: nat, instance: Option<I32>)

  /** The two size columns of a file path; the textual one is deprecated. */
  datatype Sizes = Sizes(text: Option<string>, bytes: Option<seq<byte>>)

  /** The config file, the tables that migrations touch, and the log of the migrators that were run. */
  datatype World = World(
    file: File, rules: seq<Rule>, nodes: seq<Node>, instances: seq<Instance>, locations: seq<Location>,
    paths: map<nat, Sizes>, log: seq<nat>)

  /** The curve arithmetic behind identities: the public key of a secret one, and which bytes are public keys. */
  datatype Keys = Keys(verifying: seq<byte> -> seq<byte>, isPoint: seq<byte> -> bool)

  /** What a load finds outside the library: the node, fresh identities, the clock and the id of a new row. */
  datatype Env = Env(
    nodeText: string, nodeBytes: seq<byte>, libraryIdentity: seq<byte>, instanceText: string, instanceBytes: seq<byte>,
    instanceIdentity: seq<byte>, newId: I32, now: nat, keys: Keys)

  datatype Error =
    | VersionFileDoesNotExist | MalformedVersionFile | IntConversion | SerdeJson
    | TooManyNodes | TooManyInstances | MissingInstance | InvalidIdentity

  datatype Config = Config(name: string, description: Option<string>, instanceId: I32, cloudId: Option<string>, generateSync: bool)

  /* ----- the version ----- */

  function GetVersion(file: File): (r: Result<nat, Error>)
    ensures r.Ok? ==> file.Json? && "version" in file.fields && file.fields["version"] == Number(r.value) && r.value <= LATEST_VERSION
  {
    match file
    case Missing => Err(VersionFileDoesNotExist)
    case Garbage => Err(SerdeJson)
    case Json(fields) =>
      if "version" !in fields || !fields["version"].Number? || !(0 <= fields["version"].n < Span(8)) then Err(MalformedVersionFile)
      else if fields["version"].n > LATEST_VERSION then Err(IntConversion)
      else Ok(fields["version"].n)
  }

  function Put(w: World, key: string, value: Value): World
    requires w.file.Json?
  {
    w.(file := Json(w.file.fields[key := value]))
  }

  /* ----- the migrations ----- */

  const RULE_NAMES: seq<string> := ["No OS protected", "No Hidden", "No Git", "Only Images"]

  function Protected(rule: Rule, n: nat): (r: Rule)
    requires n <= |RULE_NAMES|
    ensures r == rule.(pubId := r.pubId)
  {
    if n == 0 then rule
    else if rule.name == Some(RULE_NAMES[n - 1]) then rule.(pubId := BigEndian(n - 1, 16))
    else Protected(rule, n - 1)
  }

  function ProtectedRules(rules: seq<Rule>, n: nat): (r: seq<Rule>)
    requires n <= |RULE_NAMES|
    ensures |r| == |rules| && forall i :: 0 <= i < |r| ==> r[i] == Protected(rules[i], n)
  {
    seq(|rules|, i requires 0 <= i < |rules| => Protected(rules[i], n))
  }

  function Claimed(env: Env, nodes: seq<Node>): (r: seq<Node>)
    ensures |r| == |nodes| && forall i :: 0 <= i < |r| ==> r[i] == nodes[i].(pubId := env.nodeBytes)
  {
    seq(|nodes|, i requires 0 <= i < |nodes| => nodes[i].(pubId := env.nodeBytes))
  }

  function Linked(locations: seq<Location>, instance: I32): (r: seq<Location>)
    ensures |r| == |locations| && forall i :: 0 <= i < |r| ==> r[i] == locations[i].(instance := Some(instance))
  {
    seq(|locations|, i requires 0 <= i < |locations| => locations[i].(instance := Some(instance)))
  }

  predicate IsDigits(s: string) {
    forall i :: 0 <= i < |s| ==> '0' <= s[i] <= '9'
  }

  function Number10(s: string): nat
    requires IsDigits(s)
  {
    if s == [] then 0 else 10 * Number10(s[..|s| - 1]) + (s[|s| - 1] as nat - '0' as nat)
  }

  /** `u64` from text: an optional plus sign and at least one digit, within range. */
  function ParseU64(s: string): (r: Option<nat>)
    ensures r.Some? ==> r.value < Span(8)
  {
    var digits := if s != [] && s[0] == '+' then s[1..] else s;
    if digits != [] && IsDigits(digits) && Number10(digits) < Span(8) then Some(Number10(digits)) else None
  }

  function SizeBytes(text: string): Option<seq<byte>> {
    match ParseU64(text)
    case Some(n) => Some(BigEndian(n, 8))
    case None => None
  }

  function Converted(sizes: Sizes): Sizes {
    if sizes.text.Some? then Sizes(None, SizeBytes(sizes.text.value)) else sizes
  }

  function ConvertedPaths(paths: map<nat, Sizes>): map<nat, Sizes> {
    map id | id in paths :: Converted(paths[id])
  }

  /** The instance that stands for this node from version 6 on. */
  function NewInstance(env: Env, nodes: seq<Node>): Instance {
    Instance(env.newId, env.instanceBytes, None,
             if nodes != [] && nodes[0].identity.Some? then nodes[0].identity.value else env.instanceIdentity,
             env.nodeBytes, env.now, if nodes != [] then nodes[0].created else env.now)
  }

  const KEY_LENGTH: nat := 32

  const MARK_IDENTITY: byte := 0x49   // 'I'
  const MARK_REMOTE: byte := 0x52     // 'R'

  datatype Columns = Columns(identity: Option<seq<byte>>, remoteIdentity: seq<byte>)

  /** The two columns that the identity column of old is split into; `None` is a panic. */
  function Rekeyed(keys: Keys, b: seq<byte>): Option<Columns> {
    if b == [] then None
    else if b[0] == MARK_IDENTITY then
      if |b| < 1 + KEY_LENGTH then None else Some(Columns(Some(b[1..1 + KEY_LENGTH]), keys.verifying(b[1..1 + KEY_LENGTH])))
    else if b[0] == MARK_REMOTE then
      if |b| < 1 + KEY_LENGTH || !keys.isPoint(b[1..1 + KEY_LENGTH]) then None else Some(Columns(None, b[1..1 + KEY_LENGTH]))
    else
      if |b| < KEY_LENGTH then None else Some(Columns(Some(b[..KEY_LENGTH]), keys.verifying(b[..KEY_LENGTH])))
  }

  predicate Rekeyable(keys: Keys, i: Instance) {
    i.identity.Some? ==> Rekeyed(keys, i.identity.value).Some?
  }

  predicate AllRekeyable(keys: Keys, instances: seq<Instance>) {
    forall i :: 0 <= i < |instances| ==> Rekeyable(keys, instances[i])
  }

  function Rekey(keys: Keys, i: Instance): (r: Instance)
    requires Rekeyable(keys, i)
    ensures r.id == i.id
  {
    if i.identity.None? then i
    else
      var columns := Rekeyed(keys, i.identity.value).value;
      i.(identity := columns.identity, remoteIdentity := columns.remoteIdentity)
  }

  function RekeyAll(keys: Keys, instances: seq<Instance>): (r: seq<Instance>)
    requires AllRekeyable(keys, instances)
    ensures |r| == |instances| && forall i :: 0 <= i < |r| ==> r[i] == Rekey(keys, instances[i])
  {
    seq(|instances|, i requires 0 <= i < |instances| => Rekey(keys, instances[i]))
  }

  /** The migration from version `v` to the next; a failing one has changed nothing. */
  function Step(env: Env, w: World, v: nat): Result<World, Error>
    requires v < LATEST_VERSION && w.file.Json?
  {
    match v
    case 0 => Ok(w.(rules := ProtectedRules(w.rules, 4)))
    case 1 => Ok(Put(w, "identity", Array(env.libraryIdentity)))
    case 2 =>
      if |w.nodes| != 1 then Err(TooManyNodes)
      else Ok(Put(w.(nodes := Claimed(env, w.nodes)), "node_id", Text(env.nodeText)))
    case 4 => Ok(w.(paths := ConvertedPaths(w.paths)))
    case 5 =>
      if |w.nodes| > 1 then Err(TooManyNodes)
      else
        var fields := w.file.fields - {"node_id", "identity"};
        Ok(w.(instances := w.instances + [NewInstance(env, w.nodes)],
              file := Json(fields["instance_id" := Text(env.instanceText)])))
    case 6 =>
      if |w.instances| > 1 then Err(TooManyInstances)
      else if w.instances == [] then Err(MissingInstance)
      else
        var id := w.instances[0].id;
        Ok(Put(w, "instance_id", Number(id)).(locations := Linked(w.locations, id)))
    case 7 =>
      if w.instances == [] then Err(MissingInstance) else Ok(Put(w, "instance_id", Number(w.instances[0].id)))
    case 9 => if AllRekeyable(env.keys, w.instances) then Ok(w.(instances := RekeyAll(env.keys, w.instances))) else Err(InvalidIdentity)
    case _ => Ok(w)
  }

  datatype Migrated = Migrated(world: World, error: Option<Error>)

  /** The chain of migrations from version `v` to `last`, up to the first that fails. */
  function Migrate(env: Env, w: World, v: nat, last: nat): (r: Migrated)
    requires v <= last <= LATEST_VERSION && w.file.Json?
    ensures r.world.file.Json?
    decreases last - v
  {
    if v == last then Migrated(w, None)
    else
      var w1 := w.(log := w.log + [v]);
      match Step(env, w1, v)
      case Err(error) => Migrated(w1, Some(error))
      case Ok(w2) => Migrate(env, w2, v + 1, last)
  }

  /* ----- reading the config ----- */

  predicate NameValid(s: string) {
    s != [] && s[0] != ' ' && s[|s| - 1] != ' '
  }

  /** An optional text may be absent or null. */
  predicate OptionalText(fields: Fields, key: string) {
    key in fields ==> fields[key].Null? || fields[key].Text?
  }

  function GetText(fields: Fields, key: string): Option<string> {
    if key in fields && fields[key].Text? then Some(fields[key].s) else None
  }

  predicate Readable(fields: Fields) {
    && "name" in fields && fields["name"].Text? && NameValid(fields["name"].s)
    && OptionalText(fields, "description") && OptionalText(fields, "cloud_id")
    && ("generate_sync_operations" in fields ==> fields["generate_sync_operations"].Flag?)
  }

  predicate InstanceReadable(fields: Fields) {
    "instance_id" in fields && fields["instance_id"].Number? && -0x8000_0000 <= fields["instance_id"].n < 0x8000_0000
  }

  function ReadConfig(file: File): Result<Config, Error> {
    if file.Json? && Readable(file.fields) && InstanceReadable(file.fields) && GetVersion(file).Ok? then
      var fields := file.fields;
      Ok(Config(fields["name"].s, GetText(fields, "description"), fields["instance_id"].n, GetText(fields, "cloud_id"),
                "generate_sync_operations" in fields && fields["generate_sync_operations"].b))
    else Err(SerdeJson)
  }

  datatype Loaded = Loaded(world: World, result: Result<Config, Error>)

  /** `migrate_and_load`; a missing file is an error, since a library has no default config. */
  function Load(env: Env, w: World): Loaded {
    match GetVersion(w.file)
    case Err(error) => Loaded(w, Err(error))
    case Ok(v) =>
      if v == LATEST_VERSION then Loaded(w, ReadConfig(w.file))
      else
        var m := Migrate(env, w, v, LATEST_VERSION);
        if m.error.Some? then Loaded(m.world, Err(m.error.value))
        else
          var done := Put(m.world, "version", Number(LATEST_VERSION));
          Loaded(done, ReadConfig(done.file))
  }

  /* ----- what the chain comes to ----- */

  /** Whether the database lets every migration from `v` on succeed. */
  predicate Ready(env: Env, w: World, v: nat) {
    && (v <= 2 ==> |w.nodes| == 1)
    && (v <= 5 ==> |w.nodes| <= 1 && w.instances == [])
    && (v == 6 ==> |w.instances| == 1)
    && (v == 7 ==> w.instances != [])
    && (v <= 9 ==> AllRekeyable(env.keys, w.instances))
  }

  function Numbers(from: nat, last: nat): seq<nat>
    requires from <= last
  {
    seq(last - from, i requires 0 <= i => from + i)
  }

  function FinalFields(fields: Fields, instance: I32, v: nat): Fields {
    var kept := if v <= 5 then fields - {"node_id", "identity"} else fields;
    if v <= 7 then kept["instance_id" := Number(instance)] else kept
  }

  function FinalInstances(env: Env, w: World, v: nat): (r: seq<Instance>)
    requires Ready(env, w, v)
    ensures v <= 7 ==> r != []
  {
    if v <= 5 then [NewInstance(env, w.nodes)] else if v <= 9 then RekeyAll(env.keys, w.instances) else w.instances
  }

  /** The file and the tables after all migrations from version `v`, without going through them. */
  function Final(env: Env, w: World, v: nat): World
    requires v <= LATEST_VERSION && w.file.Json? && Ready(env, w, v)
  {
    var instances := FinalInstances(env, w, v);
    World(
      Json(FinalFields(w.file.fields, if v <= 7 then instances[0].id else 0, v)),
      if v == 0 then ProtectedRules(w.rules, 4) else w.rules,
      if v <= 2 then Claimed(env, w.nodes) else w.nodes,
      instances,
      if v <= 6 then Linked(w.locations, instances[0].id) else w.locations,
      if v <= 4 then ConvertedPaths(w.paths) else w.paths,
      w.log + Numbers(v, LATEST_VERSION))
  }

  lemma StepReady(env: Env, w: World, v: nat)
    requires v < LATEST_VERSION && w.file.Json?
    ensures var r := Step(env, w, v);
            (r.Ok? ==> r.value.file.Json?) && (Ready(env, w, v) <==> r.Ok? && Ready(env, r.value, v + 1))
  {
    hide ProtectedRules, Linked, ConvertedPaths, Rekeyed;
  }

  lemma StepInstances(env: Env, w: World, v: nat)
    requires v < LATEST_VERSION && w.file.Json? && Ready(env, w, v)
    ensures var r := Step(env, w, v);
            r.Ok? && Ready(env, r.value, v + 1) && FinalInstances(env, r.value, v + 1) == FinalInstances(env, w, v)
  {
    StepReady(env, w, v);
    hide ProtectedRules, Linked, ConvertedPaths;
  }

  lemma StepFields(env: Env, w: World, v: nat, instance: I32)
    requires v < LATEST_VERSION && w.file.Json? && Ready(env, w, v)
    requires v == 6 || v == 7 ==> w.instances[0].id == instance
    ensures var r := Step(env, w, v);
            r.Ok? && r.value.file.Json? && FinalFields(r.value.file.fields, instance, v + 1) == FinalFields(w.file.fields, instance, v)
  {
    StepReady(env, w, v);
    hide ProtectedRules, Linked, ConvertedPaths, NewInstance, Claimed;
    var fields := Step(env, w, v).value.file.fields;
    if v == 1 || v == 2 {
      assert fields - {"node_id", "identity"} == w.file.fields - {"node_id", "identity"};
    }
  }

  lemma StepTowardsFinal(env: Env, w: World, v: nat)
    requires v < LATEST_VERSION && w.file.Json? && Ready(env, w, v)
    ensures var w1 := w.(log := w.log + [v]);
            var r := Step(env, w1, v);
            r.Ok? && r.value.file.Json? && Ready(env, r.value, v + 1) && Final(env, r.value, v + 1) == Final(env, w, v)
  {
    var w1 := w.(log := w.log + [v]);
    StepInstances(env, w1, v);
    StepFields(env, w1, v, if v <= 7 then FinalInstances(env, w, v)[0].id else 0);
    assert w1.log + Numbers(v + 1, LATEST_VERSION) == w.log + Numbers(v, LATEST_VERSION);
    hide Numbers, ProtectedRules, ConvertedPaths, Linked, FinalFields, FinalInstances, Ready;
  }

  /** The chain succeeds exactly for a ready database, and then runs every step once, in order, with the outcome above. */
  lemma {:induction false} MigratesToFinal(env: Env, w: World, v: nat)
    requires v <= LATEST_VERSION && w.file.Json?
    ensures var m := Migrate(env, w, v, LATEST_VERSION);
            (m.error.None? <==> Ready(env, w, v)) && (Ready(env, w, v) ==> m.world == Final(env, w, v))
    decreases LATEST_VERSION - v
  {
    if v < LATEST_VERSION {
      var w1 := w.(log := w.log + [v]);
      StepReady(env, w1, v);
      var r := Step(env, w1, v);
      if Ready(env, w, v) {
        StepTowardsFinal(env, w, v);
      }
      hide Step, Final, Ready;
      if r.Ok? {
        MigratesToFinal(env, r.value, v + 1);
      }
    } else {
      assert w.log + Numbers(v, LATEST_VERSION) == w.log;
    }
  }

  const MIGRATED_KEYS: set<string> := {"instance_id", "node_id", "identity"}

  /** However far the chain gets, the version on disk stays the one it started from, as do all keys it does not own. */
  lemma {:induction false} MigrationsKeepVersion(env: Env, w: World, v: nat, last: nat)
    requires v <= last <= LATEST_VERSION && w.file.Json?
    ensures Migrate(env, w, v, last).world.file.fields - MIGRATED_KEYS == w.file.fields - MIGRATED_KEYS
    decreases last - v
  {
    if v < last {
      var w1 := w.(log := w.log + [v]);
      var r := Step(env, w1, v);
      if r.Ok? {
        StepKeepsKeys(env, w1, v);
        hide Step;
        MigrationsKeepVersion(env, r.value, v + 1, last);
      }
    }
  }

  ghost predicate LogGrows(before: seq<nat>, after: seq<nat>, v: nat, n: nat)
    requires v <= n
  {
    after == before + Numbers(v, n)
  }

  /** The steps begun are consecutive from the version found, whether the last of them succeeds or not. */
  lemma {:induction false} StepsAreInOrder(env: Env, w: World, v: nat, last: nat) returns (n: nat)
    requires v <= last <= LATEST_VERSION && w.file.Json?
    ensures v <= n <= last && LogGrows(w.log, Migrate(env, w, v, last).world.log, v, n)
    ensures Migrate(env, w, v, last).error.None? ==> n == last
    decreases last - v
  {
    hide Step, Numbers;
    LogSteps(w.log, v, v);
    n := v;
    if v < last {
      var w1 := w.(log := w.log + [v]);
      var r := Step(env, w1, v);
      n := v + 1;
      LogSteps(w.log, v, v + 1);
      if r.Ok? {
        StepKeepsKeys(env, w1, v);
        n := StepsAreInOrder(env, r.value, v + 1, last);
        LogSteps(w.log, v, n);
      }
    }
  }

  lemma LogSteps(log: seq<nat>, v: nat, n: nat)
    requires v <= n
    ensures v == n ==> log + Numbers(v, n) == log
    ensures v < n ==> log + [v] + Numbers(v + 1, n) == log + Numbers(v, n)
    ensures v + 1 == n ==> log + [v] == log + Numbers(v, n)
  {
  }

  lemma StepKeepsKeys(env: Env, w: World, v: nat)
    requires v < LATEST_VERSION && w.file.Json? && Step(env, w, v).Ok?
    ensures var w' := Step(env, w, v).value;
            w'.file.Json? && w'.file.fields - MIGRATED_KEYS == w.file.fields - MIGRATED_KEYS && w'.log == w.log
  {
    hide ProtectedRules, Linked, ConvertedPaths, NewInstance, Claimed;
  }

  /* ----- loading ----- */

  /** What a caller can check beforehand: the database, and the keys that the config is read from. */
  predicate Loadable(env: Env, w: World) {
    var version := GetVersion(w.file);
    version.Ok? && Ready(env, w, version.value) && Readable(w.file.fields) && (version.value >= 8 ==> InstanceReadable(w.file.fields))
  }

  lemma LoadSucceedsExactly(env: Env, w: World)
    ensures Load(env, w).result.Ok? <==> Loadable(env, w)
  {
    var version := GetVersion(w.file);
    if version.Ok? && version.value < LATEST_VERSION {
      MigratesToFinal(env, w, version.value);
      var m := Migrate(env, w, version.value, LATEST_VERSION);
      MigrationsKeepVersion(env, w, version.value, LATEST_VERSION);
      SameReadable(m.world.file.fields["version" := Number(LATEST_VERSION)], w.file.fields);
      if m.error.None? {
        FinalInstanceReadable(env, w, version.value);
        hide Migrate, Final, Ready, Readable;
      }
    }
  }

  lemma SameReadable(a: Fields, b: Fields)
    requires a - MIGRATED_KEYS - {"version"} == b - MIGRATED_KEYS - {"version"}
    ensures Readable(a) <==> Readable(b)
  {
    var f, g := a - MIGRATED_KEYS - {"version"}, b - MIGRATED_KEYS - {"version"};
    assert forall key :: key !in MIGRATED_KEYS && key != "version" ==> (key in a <==> key in f) && (key in a ==> a[key] == f[key]);
    assert forall key :: key !in MIGRATED_KEYS && key != "version" ==> (key in b <==> key in g) && (key in b ==> b[key] == g[key]);
    assert "name" !in MIGRATED_KEYS && "description" !in MIGRATED_KEYS && "cloud_id" !in MIGRATED_KEYS;
    assert "generate_sync_operations" !in MIGRATED_KEYS;
    assert "name" != "version" && "description" != "version" && "cloud_id" != "version" && "generate_sync_operations" != "version";
  }

  lemma FinalInstanceReadable(env: Env, w: World, v: nat)
    requires v <= LATEST_VERSION && w.file.Json? && Ready(env, w, v)
    ensures InstanceReadable(Final(env, w, v).file.fields["version" := Number(LATEST_VERSION)])
            <==> (v >= 8 ==> InstanceReadable(w.file.fields))
  {
    assert "instance_id" != "version";
  }

  predicate HasInstance(instances: seq<Instance>, id: I32) {
    exists i :: 0 <= i < |instances| && instances[i].id == id
  }

  /**
   What a successful load from version `v` leaves: every step logged once and in order, version 10, no
   key of the old schemas, an integer instance id that names a row, and all locations linked to it.
   */
  lemma LoadLeaves(env: Env, w: World)
    requires Load(env, w).result.Ok?
    ensures GetVersion(w.file).Ok? && Load(env, w).world.file.Json?
    ensures var v, loaded := GetVersion(w.file).value, Load(env, w);
            var world, config := loaded.world, loaded.result.value;
            && GetVersion(world.file) == Ok(LATEST_VERSION) && world.log == w.log + Numbers(v, LATEST_VERSION)
            && (forall key :: key in {"node_id", "identity"} ==> (key in world.file.fields <==> v >= 6 && key in w.file.fields))
            && world.file.fields - MIGRATED_KEYS - {"version"} == w.file.fields - MIGRATED_KEYS - {"version"}
            && (v <= 7 ==> HasInstance(world.instances, config.instanceId))
            && (v <= 6 ==> forall i :: 0 <= i < |world.locations| ==> world.locations[i].instance == Some(config.instanceId))
            && (v <= 5 ==> |world.instances| == 1)
            && (v <= 9 ==> forall i :: 0 <= i < |world.instances| ==> KeysAgree(env.keys, world.instances[i]))
            && (6 <= v ==> |world.instances| == |w.instances| && forall i :: 0 <= i < |w.instances| ==> world.instances[i].id == w.instances[i].id)
            && world.paths == (if v <= 4 then ConvertedPaths(w.paths) else w.paths)
  {
    LoadSucceedsExactly(env, w);
    var v := GetVersion(w.file).value;
    assert "instance_id" != "version" && "node_id" != "version" && "identity" != "version";
    if v < LATEST_VERSION {
      MigratesToFinal(env, w, v);
      MigrationsKeepVersion(env, w, v, LATEST_VERSION);
      FinalFacts(env, w, v);
      hide Migrate, Final, FinalFields, Ready, KeysAgree, Numbers, Readable, ConvertedPaths;
    } else {
      assert w.log + Numbers(v, v) == w.log;
    }
  }

  /** An identity that a row holds is a whole one, and the public one beside it is its own. */
  predicate KeysAgree(keys: Keys, i: Instance) {
    i.identity.Some? ==> |i.identity.value| == 32 && i.remoteIdentity == keys.verifying(i.identity.value)
  }

  /** A marked identity is split into its two columns, if it is long enough; a raw one also only if it does not begin like a marked one. */
  lemma RawIdentityMigratesExactly(keys: Keys, raw: seq<byte>)
    requires |raw| == 32
    ensures Rekeyed(keys, [0x49] + raw) == Some(Columns(Some(raw), keys.verifying(raw)))
    ensures Rekeyed(keys, [0x52] + raw) == if keys.isPoint(raw) then Some(Columns(None, raw)) else None
    ensures Rekeyed(keys, raw).Some? <==> raw[0] != 0x49 && raw[0] != 0x52
    ensures Rekeyed(keys, raw).Some? ==> Rekeyed(keys, raw) == Some(Columns(Some(raw), keys.verifying(raw)))
    ensures forall more: seq<byte> :: Rekeyed(keys, raw + more).Some? && raw[0] != 0x49 && raw[0] != 0x52 ==>
              Rekeyed(keys, raw + more) == Some(Columns(Some(raw), keys.verifying(raw)))
    ensures forall short: seq<byte> :: |short| < 32 ==> Rekeyed(keys, short).None?
  {
    assert ([0x49] + raw)[1..1 + 32] == raw && ([0x52] + raw)[1..1 + 32] == raw;
    assert raw[..32] == raw && forall more: seq<byte> :: (raw + more)[..32] == raw;
  }

  /** The instance made for a library older than version 6 is never split: its identity stays in the public column. */
  lemma NewInstanceIsNotRekeyed(env: Env, w: World)
    requires Load(env, w).result.Ok? && GetVersion(w.file).value <= 5
    ensures var i := Load(env, w).world.instances;
            && |i| == 1 && i[0].identity == None
            && i[0].remoteIdentity
               == (if w.nodes != [] && w.nodes[0].identity.Some? then w.nodes[0].identity.value else env.instanceIdentity)
            && i[0].id == env.newId && i[0].pubId == env.instanceBytes && i[0].nodeId == env.nodeBytes
            && i[0].lastSeen == env.now && i[0].created == (if w.nodes != [] then w.nodes[0].created else env.now)
  {
    LoadSucceedsExactly(env, w);
    MigratesToFinal(env, w, GetVersion(w.file).value);
    hide Migrate, Ready;
  }

  lemma FinalFacts(env: Env, w: World, v: nat)
    requires v <= LATEST_VERSION && w.file.Json? && Ready(env, w, v)
    ensures var f := Final(env, w, v);
            && f.file.Json? && f.log == w.log + Numbers(v, LATEST_VERSION)
            && (forall key :: key in {"node_id", "identity"} ==> (key in f.file.fields <==> v >= 6 && key in w.file.fields))
            && (v <= 7 ==> f.instances != [] && "instance_id" in f.file.fields && f.file.fields["instance_id"] == Number(f.instances[0].id))
            && (v <= 6 ==> forall i :: 0 <= i < |f.locations| ==> f.locations[i].instance == Some(f.instances[0].id))
            && (v <= 5 ==> |f.instances| == 1)
            && (v <= 9 ==> forall i :: 0 <= i < |f.instances| ==> KeysAgree(env.keys, f.instances[i]))
            && (6 <= v ==> |f.instances| == |w.instances| && forall i :: 0 <= i < |w.instances| ==> f.instances[i].id == w.instances[i].id)
            && f.paths == (if v <= 4 then ConvertedPaths(w.paths) else w.paths)
  {
  }

  /** The text under a key, if there is one; null counts as none. */
  ghost predicate IsTextOf(fields: Fields, key: string, r: Option<string>) {
    if key in fields && fields[key] != Null then r.Some? && fields[key] == Text(r.value) else r == None
  }

  /** A loaded config holds what the file that was found had under each key of its own. */
  lemma LoadReads(env: Env, w: World)
    requires Load(env, w).result.Ok?
    ensures GetVersion(w.file).Ok? && w.file.Json?
    ensures var config, fields, v := Load(env, w).result.value, w.file.fields, GetVersion(w.file).value;
            && "name" in fields && fields["name"] == Text(config.name)
            && IsTextOf(fields, "description", config.description) && IsTextOf(fields, "cloud_id", config.cloudId)
            && (if "generate_sync_operations" in fields then fields["generate_sync_operations"] == Flag(config.generateSync)
                else !config.generateSync)
            && (v >= 8 ==> "instance_id" in fields && fields["instance_id"] == Number(config.instanceId))
  {
    LoadSucceedsExactly(env, w);
    var v := GetVersion(w.file).value;
    if v < LATEST_VERSION {
      MigratesToFinal(env, w, v);
      MigrationsKeepVersion(env, w, v, LATEST_VERSION);
      var f, g := Load(env, w).world.file.fields, w.file.fields;
      SameForeign(f, g, "name");
      SameForeign(f, g, "description");
      SameForeign(f, g, "cloud_id");
      SameForeign(f, g, "generate_sync_operations");
      FinalKeepsInstanceId(env, w, v);
      hide Migrate, Final, Ready;
    }
  }

  lemma SameForeign(a: Fields, b: Fields, key: string)
    requires a - MIGRATED_KEYS - {"version"} == b - MIGRATED_KEYS - {"version"}
    requires key !in MIGRATED_KEYS && key != "version"
    ensures (key in a <==> key in b) && (key in a ==> a[key] == b[key])
  {
    var f, g := a - MIGRATED_KEYS - {"version"}, b - MIGRATED_KEYS - {"version"};
    assert (key in a <==> key in f) && (key in b <==> key in g);
    assert (key in a ==> a[key] == f[key]) && (key in b ==> b[key] == g[key]);
  }

  lemma FinalKeepsInstanceId(env: Env, w: World, v: nat)
    requires v <= LATEST_VERSION && w.file.Json? && Ready(env, w, v)
    ensures v >= 8 ==>
              var f := Final(env, w, v).file.fields["version" := Number(LATEST_VERSION)];
              ("instance_id" in f <==> "instance_id" in w.file.fields)
              && ("instance_id" in f ==> f["instance_id"] == w.file.fields["instance_id"])
  {
    assert "instance_id" != "version";
  }

  /** The names that a first migration looks for, in the order of the ids it gives them. */
  ghost predicate RuleKept(before: Rule, after: Rule) {
    && after.name == before.name
    && after.pubId ==
       if before.name == Some("No OS protected") then BigEndian(0, 16)
       else if before.name == Some("No Hidden") then BigEndian(1, 16)
       else if before.name == Some("No Git") then BigEndian(2, 16)
       else if before.name == Some("Only Images") then BigEndian(3, 16)
       else before.pubId
  }

  /** A size column that was migrated: the text is gone, and its bytes are the number it was, or none. */
  ghost predicate SizesKept(before: Sizes, after: Sizes) {
    && after.text == None
    && (before.text.None? ==> after.bytes == before.bytes)
    && (before.text.Some? ==>
          if after.bytes.Some? then
            |after.bytes.value| == 8 && ParseU64(before.text.value) == Some(BigValue(after.bytes.value))
          else ParseU64(before.text.value).None?)
  }

  /** What a successful load does to every row of the tables, told row by row. */
  lemma LoadKeepsRows(env: Env, w: World)
    requires Load(env, w).result.Ok?
    ensures GetVersion(w.file).Ok?
    ensures var v, r := GetVersion(w.file).value, Load(env, w).world;
            && |r.rules| == |w.rules|
            && (forall i :: 0 <= i < |w.rules| ==> if v == 0 then RuleKept(w.rules[i], r.rules[i]) else r.rules[i] == w.rules[i])
            && |r.nodes| == |w.nodes|
            && (forall i :: 0 <= i < |w.nodes| ==>
                  r.nodes[i] == if v <= 2 then Node(env.nodeBytes, w.nodes[i].identity, w.nodes[i].created) else w.nodes[i])
            && |r.locations| == |w.locations|
            && (forall i :: 0 <= i < |w.locations| ==> r.locations[i].id == w.locations[i].id && (v >= 7 ==> r.locations[i] == w.locations[i]))
            && r.paths.Keys == w.paths.Keys
            && (forall id :: id in w.paths ==> if v <= 4 then SizesKept(w.paths[id], r.paths[id]) else r.paths[id] == w.paths[id])
            && (v == 10 ==> r.instances == w.instances)
            && (6 <= v ==> |r.instances| == |w.instances| && forall i :: 0 <= i < |w.instances| ==>
                  r.instances[i].(identity := None, remoteIdentity := []) == w.instances[i].(identity := None, remoteIdentity := []))
  {
    LoadSucceedsExactly(env, w);
    var v := GetVersion(w.file).value;
    MigratesToFinal(env, w, v);
    if v < LATEST_VERSION {
      FinalRows(env, w, v);
      hide Migrate, Final, Ready, RuleKept, SizesKept;
    }
  }

  lemma FinalRows(env: Env, w: World, v: nat)
    requires v <= LATEST_VERSION && w.file.Json? && Ready(env, w, v)
    ensures var r := Final(env, w, v);
            && |r.rules| == |w.rules|
            && (forall i :: 0 <= i < |w.rules| ==> if v == 0 then RuleKept(w.rules[i], r.rules[i]) else r.rules[i] == w.rules[i])
            && |r.nodes| == |w.nodes|
            && (forall i :: 0 <= i < |w.nodes| ==>
                  r.nodes[i] == if v <= 2 then Node(env.nodeBytes, w.nodes[i].identity, w.nodes[i].created) else w.nodes[i])
            && |r.locations| == |w.locations|
            && (forall i :: 0 <= i < |w.locations| ==> r.locations[i].id == w.locations[i].id && (v >= 7 ==> r.locations[i] == w.locations[i]))
            && r.paths.Keys == w.paths.Keys
            && (forall id :: id in w.paths ==> if v <= 4 then SizesKept(w.paths[id], r.paths[id]) else r.paths[id] == w.paths[id])
            && (v == 10 ==> r.instances == w.instances)
            && (6 <= v ==> |r.instances| == |w.instances| && forall i :: 0 <= i < |w.instances| ==>
                  r.instances[i].(identity := None, remoteIdentity := []) == w.instances[i].(identity := None, remoteIdentity := []))
  {
    forall i | 0 <= i < |w.rules| ensures RuleKept(w.rules[i], Protected(w.rules[i], 4)) {
      RuleIsKept(w.rules[i]);
    }
    forall id | id in w.paths ensures SizesKept(w.paths[id], Converted(w.paths[id])) {
      SizesAreKept(w.paths[id]);
    }
    hide Protected, RuleKept, Converted, SizesKept, Rekeyed;
  }

  lemma RuleIsKept(rule: Rule)
    ensures RuleKept(rule, Protected(rule, 4))
  {
    hide BigEndian;
    assert |"No OS protected"| == 15 && |"No Hidden"| == 9 && |"No Git"| == 6 && |"Only Images"| == 11;
    var none := Protected(rule, 0);
    var one := Protected(rule, 1);
    var two := Protected(rule, 2);
    var three := Protected(rule, 3);
    assert one == if rule.name == Some("No OS protected") then rule.(pubId := BigEndian(0, 16)) else none;
    assert two == if rule.name == Some("No Hidden") then rule.(pubId := BigEndian(1, 16)) else one;
    assert three == if rule.name == Some("No Git") then rule.(pubId := BigEndian(2, 16)) else two;
  }

  lemma SizesAreKept(sizes: Sizes)
    ensures SizesKept(sizes, Converted(sizes))
  {
    if sizes.text.Some? && ParseU64(sizes.text.value).Some? {
      BigRoundTrip(ParseU64(sizes.text.value).value, 8);
    }
    hide ParseU64, BigEndian, BigValue;
  }

  /** Loading again runs no step, changes nothing and reads the same config. */
  lemma SecondLoadIsIdle(env: Env, w: World, env2: Env)
    requires Load(env, w).result.Ok?
    ensures Load(env2, Load(env, w).world) == Load(env, w)
  {
    LoadLeaves(env, w);
  }

  /** A load that fails leaves the version as it was, unless it was the reading of the migrated config that failed. */
  lemma FailedLoadKeepsVersion(env: Env, w: World)
    requires GetVersion(w.file).Ok? && Load(env, w).result.Err?
    ensures GetVersion(Load(env, w).world.file) == Ok(if Ready(env, w, GetVersion(w.file).value) then LATEST_VERSION else GetVersion(w.file).value)
  {
    var v := GetVersion(w.file).value;
    if v < LATEST_VERSION {
      MigratesToFinal(env, w, v);
      MigrationsKeepVersion(env, w, v, LATEST_VERSION);
      var f, g := Migrate(env, w, v, LATEST_VERSION).world.file.fields, w.file.fields;
      SameVersion(f, g);
      hide Migrate, Ready, ReadConfig;
    }
  }

  lemma SameVersion(a: Fields, b: Fields)
    requires a - MIGRATED_KEYS == b - MIGRATED_KEYS
    ensures ("version" in a <==> "version" in b) && ("version" in a ==> a["version"] == b["version"])
  {
    var f, g := a - MIGRATED_KEYS, b - MIGRATED_KEYS;
    assert ("version" in a <==> "version" in f) && ("version" in b <==> "version" in g);
    assert ("version" in a ==> a["version"] == f["version"]) && ("version" in b ==> b["version"] == g["version"]);
  }

  /** A library older than version 6 that has an instance already. */
  predicate Blocked(w: World, v: nat) {
    v <= 5 && w.instances != [] && |w.nodes| <= 1 && (v <= 2 ==> |w.nodes| == 1)
  }

  lemma {:induction false} BlockedMigration(env: Env, w: World, v: nat)
    requires w.file.Json? && Blocked(w, v)
    ensures var m := Migrate(env, w, v, LATEST_VERSION);
            && m.error == Some(TooManyInstances) && Blocked(m.world, v)
            && m.world.instances == w.instances + [NewInstance(env, w.nodes)]
    decreases 5 - v
  {
    var w1 := w.(log := w.log + [v]);
    var r := Step(env, w1, v);
    StepReady(env, w1, v);
    if v < 5 {
      assert Blocked(r.value, v + 1) && r.value.instances == w.instances && NewInstance(env, r.value.nodes) == NewInstance(env, w.nodes);
      hide Step;
      BlockedMigration(env, r.value, v + 1);
    } else {
      assert |r.value.instances| > 1;
      assert Step(env, r.value.(log := r.value.log + [6]), 6) == Err(TooManyInstances);
    }
  }

  /** Failing is not undone: such a library never loads, and every attempt adds another instance. */
  lemma EveryRetryAddsAnInstance(env: Env, w: World)
    requires GetVersion(w.file).Ok? && Blocked(w, GetVersion(w.file).value)
    ensures var l := Load(env, w);
            && l.result == Err(TooManyInstances) && l.world.instances == w.instances + [NewInstance(env, w.nodes)]
            && GetVersion(l.world.file) == GetVersion(w.file) && Blocked(l.world, GetVersion(l.world.file).value)
  {
    BlockedMigration(env, w, GetVersion(w.file).value);
    FailedLoadKeepsVersion(env, w);
  }

  /* ----- sizes ----- */

  function Decimal(n: nat): (s: string)
    ensures s != []
  {
    if n < 10 then [n as char + '0'] else Decimal(n / 10) + [(n % 10) as char + '0']
  }

  lemma {:induction false} DecimalIsRead(n: nat)
    ensures IsDigits(Decimal(n)) && Number10(Decimal(n)) == n
  {
    if n >= 10 {
      DecimalIsRead(n / 10);
      assert Decimal(n)[..|Decimal(n)| - 1] == Decimal(n / 10);
    } else {
      assert Decimal(n)[..0] == [] && Number10([]) == 0;
    }
  }

  /** A size that was stored as text keeps its value: it becomes the eight bytes of that number. */
  lemma SizeSurvives(n: nat)
    requires n < Span(8)
    ensures var size := Converted(Sizes(Some(Decimal(n)), None));
            size.text.None? && size.bytes.Some? && |size.bytes.value| == 8 && BigValue(size.bytes.value) == n
  {
    DecimalIsRead(n);
    BigRoundTrip(n, 8);
    assert '0' <= Decimal(n)[0] <= '9';
  }

  /** Which texts are sizes: digits for a number below 2^64, after a plus sign or not, and nothing else. */
  lemma SizeTextsExactly(n: nat, s: string)
    ensures ParseU64(Decimal(n)) == (if n < Span(8) then Some(n) else None) == ParseU64("+" + Decimal(n))
    ensures ParseU64("") == None && ParseU64("+") == None
    ensures (exists i :: 0 < i < |s| && !('0' <= s[i] <= '9')) ==> ParseU64(s) == None
    ensures s != [] && s[0] != '+' && !('0' <= s[0] <= '9') ==> ParseU64(s) == None
  {
    DecimalIsRead(n);
    assert ("+" + Decimal(n))[1..] == Decimal(n) && '0' <= Decimal(n)[0] <= '9' && "+"[1..] == [];
    if i :| 0 < i < |s| && !('0' <= s[i] <= '9') {
      assert s[1..][i - 1] == s[i];
    }
    hide Number10, Decimal;
  }
}
