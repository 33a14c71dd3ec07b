/**
 * The agent's configuration: command line, config file and provisioning updates
 * (python/src/agent/agent/agent_config.py).
 */
module AgentConfiguration {
  import opened Wrappers
  import opened Text

  /** The option names the code treats specially; every other one is `Other`. */
  datatype Key =
    | ConfigPath | Datastores | VmNetwork | Chairman | AvailabilityZone | Hostname | HostPort
    | StatsStoreEndpoint | StatsStorePort | StatsEnabled | MemoryOvercommit | CpuOvercommit
    | ImageDatastores | ManagementOnly | HostId | DeploymentId | Other(name: string)

  /** A JSON-able value. Python compares and tests numbers and booleans by their numeric value. */
  datatype Value = Nil | Num(n: real) | Str(s: string) | Lst(items: seq<Value>) | Dct(fields: map<string, Value>)

  type Options = map<Key, Value>

  predicate Truthy(v: Value) {
    match v
    case Nil => false
    case Num(n) => n != 0.0
    case Str(s) => s != ""
    case Lst(items) => items != []
    case Dct(fields) => fields != map[]
  }

  function Get(o: Options, k: Key): Value {
    if k in o then o[k] else Nil
  }

  predicate IsListKey(k: Key) {
    k == Datastores || k == VmNetwork || k == Chairman
  }

  /** `_parse_list`: a string is split at commas and each part stripped; others stay. */
  function ParseList(v: Value): (r: Value)
    ensures !r.Str?
    ensures !v.Str? ==> r == v
  {
    match v
    case Str(s) =>
      var parts := Split(s, ',');
      Lst(seq(|parts|, i requires 0 <= i < |parts| => Str(Strip(parts[i]))))
    case _ => v
  }

  /** Names written with commas between them, and space around them, are read as a list of the names. */
  lemma ParseListReadsNames(parts: seq<string>)
    requires parts != [] && forall i :: 0 <= i < |parts| ==> ',' !in parts[i]
    ensures ParseList(Str(Join(parts, ','))).Lst?
    ensures |ParseList(Str(Join(parts, ','))).items| == |parts|
    ensures forall i :: 0 <= i < |parts| ==> ParseList(Str(Join(parts, ','))).items[i] == Str(Strip(parts[i]))
  {
    SplitJoin(parts, ',');
  }

  function SanitizedValue(k: Key, v: Value): Value {
    if IsListKey(k) then ParseList(v) else v
  }

  function Sanitize(o: Options): Options {
    map k | k in o :: SanitizedValue(k, o[k])
  }

  /** `_is_unset`: equal to its default, or falsy. */
  predicate Unset(defaults: Options, o: Options, k: Key) {
    k in o && ((k in defaults && defaults[k] == o[k]) || !Truthy(o[k]))
  }

  /** The config file gives way to whatever the command line has set. */
  function Load(defaults: Options, o: Options, file: Options): Options {
    Sanitize(map k | k in o :: if k in file && Unset(defaults, o, k) then file[k] else o[k])
  }

  function Persist(defaults: Options, o: Options): Options {
    map k | k in o && !Unset(defaults, o, k) :: o[k]
  }

  // ----- starting and restarting -------------------------------------------------------------

  /** Config files by the path they are under. */
  type Files = map<Value, Options>

  function FileAt(fs: Files, path: Value): Options {
    if path in fs then fs[path] else map[]
  }

  /** What starting with command-line options `o` makes of the file it finds. */
  function Started(defaults: Options, o: Options, fs: Files): Options {
    Load(defaults, o, FileAt(fs, Get(o, ConfigPath)))
  }

  /** Options are written where they themselves say. */
  function Save(defaults: Options, o: Options, fs: Files): Files {
    fs[Get(o, ConfigPath) := Persist(defaults, o)]
  }

  function Boot(defaults: Options, o: Options, fs: Files): Files {
    Save(defaults, Started(defaults, o, fs), fs)
  }

  /** The command line sets the option. */
  predicate SetIn(defaults: Options, o: Options, k: Key) {
    k in o && !Unset(defaults, o, k)
  }

  /** What a load makes of each option, given that the command-line options are sanitized. */
  lemma LoadAt(defaults: Options, o: Options, file: Options, k: Key)
    requires Sanitize(o) == o && k in o
    ensures Load(defaults, o, file)[k] ==
              if k in file && Unset(defaults, o, k) then SanitizedValue(k, file[k]) else o[k]
  {
    assert Sanitize(o)[k] == SanitizedValue(k, o[k]);
  }

  /** None, zero, or empty. */
  predicate Blank(v: Value) {
    v == Nil || v == Num(0.0) || v == Str("") || v == Lst([]) || v == Dct(map[])
  }

  /** Has its default value, or a blank one. */
  lemma UnsetExactly(defaults: Options, o: Options, k: Key)
    requires k in o
    ensures Unset(defaults, o, k) <==> (k in defaults && o[k] == defaults[k]) || Blank(o[k])
  {
  }

  /**
   * What loading does, option by option: the file's value is taken exactly where the option is
   * declared and has its default value or a blank one; strings become lists for the three lists.
   */
  lemma LoadExactly(defaults: Options, o: Options, file: Options, k: Key)
    ensures k in Load(defaults, o, file) <==> k in o
    ensures k in o ==>
              var v := if k in file && ((k in defaults && o[k] == defaults[k]) || Blank(o[k])) then file[k] else o[k];
              Load(defaults, o, file)[k] ==
                if k == Datastores || k == VmNetwork || k == Chairman then ParseList(v) else v
  {
    if k in o {
      UnsetExactly(defaults, o, k);
    }
  }

  /** Exactly the options that have neither are written, with their values. */
  lemma PersistExactly(defaults: Options, o: Options, k: Key)
    ensures k in Persist(defaults, o) <==> k in o && !(k in defaults && o[k] == defaults[k]) && !Blank(o[k])
    ensures k in Persist(defaults, o) ==> Persist(defaults, o)[k] == o[k]
  {
    if k in o {
      UnsetExactly(defaults, o, k);
    }
  }

  /** Loading what was persisted from loaded options persists the same again. */
  lemma PersistIsStable(defaults: Options, o: Options, file: Options)
    requires Sanitize(o) == o
    ensures var once := Persist(defaults, Load(defaults, o, file));
            Persist(defaults, Load(defaults, o, once)) == once
  {
    var o1 := Load(defaults, o, file);
    var once := Persist(defaults, o1);
    var o2 := Load(defaults, o, once);
    forall k | k in o
      ensures SetIn(defaults, o2, k) <==> SetIn(defaults, o1, k)
      ensures SetIn(defaults, o1, k) ==> o2[k] == o1[k]
    {
      LoadAt(defaults, o, file, k);
      LoadAt(defaults, o, once, k);
    }
  }

  /** Saving over a file that was just saved leaves the later one. */
  lemma SaveTwice(defaults: Options, o1: Options, o2: Options, fs: Files)
    requires Get(o1, ConfigPath) == Get(o2, ConfigPath) && Persist(defaults, o1) == Persist(defaults, o2)
    ensures Save(defaults, o2, Save(defaults, o1, fs)) == Save(defaults, o1, fs)
  {
  }

  lemma PathAfterReload(defaults: Options, o: Options, file: Options)
    requires Sanitize(o) == o && ConfigPath in o
    ensures var o1 := Load(defaults, o, file);
            Get(o1, ConfigPath) == o[ConfigPath] ==>
              Get(Load(defaults, o, Persist(defaults, o1)), ConfigPath) == o[ConfigPath]
  {
    LoadAt(defaults, o, file, ConfigPath);
    LoadAt(defaults, o, Persist(defaults, Load(defaults, o, file)), ConfigPath);
  }

  /** Starting twice with the same arguments leaves all config files as starting once does. */
  lemma BootIsIdempotent(defaults: Options, commandLine: Options, fs: Files)
    requires ConfigPath in commandLine
    ensures var o := Sanitize(commandLine);
            Boot(defaults, o, Boot(defaults, o, fs)) == Boot(defaults, o, fs)
  {
    var o := Sanitize(commandLine);
    SanitizeTwice(commandLine);
    var file := FileAt(fs, o[ConfigPath]);
    var o1 := Load(defaults, o, file);
    var fs1 := Save(defaults, o1, fs);
    if Get(o1, ConfigPath) == o[ConfigPath] {
      PersistIsStable(defaults, o, file);
      PathAfterReload(defaults, o, file);
      assert FileAt(fs1, o[ConfigPath]) == Persist(defaults, o1);
      SaveTwice(defaults, o1, Load(defaults, o, Persist(defaults, o1)), fs);
    } else {
      assert FileAt(fs1, o[ConfigPath]) == file;
      SaveTwice(defaults, o1, o1, fs);
    }
  }

  /**
   * After running options `u` were persisted, a restart with the same arguments gives every
   * declared option its command-line value if that is set, otherwise the running value if that
   * is set, otherwise the unset command-line value; undeclared options are gone. So it agrees
   * with the running agent on an option exactly when one of the first two is what was running.
   */
  lemma RestartExactly(defaults: Options, o: Options, fs: Files, u: Options, k: Key)
    requires Sanitize(o) == o && Sanitize(u) == u && ConfigPath in o && Get(u, ConfigPath) == o[ConfigPath]
    ensures var after := Started(defaults, o, Save(defaults, u, fs));
            && (k in after <==> k in o)
            && (k in o ==> after[k] == if !SetIn(defaults, o, k) && SetIn(defaults, u, k) then u[k] else o[k])
            && (k in o && !SetIn(defaults, o, k) && !SetIn(defaults, u, k) ==> Unset(defaults, after, k))
            && (k in o && k in u ==>
                  (after[k] == u[k] <==> (!SetIn(defaults, o, k) && SetIn(defaults, u, k)) || o[k] == u[k]))
  {
    assert FileAt(Save(defaults, u, fs), o[ConfigPath]) == Persist(defaults, u);
    if k in o {
      LoadAt(defaults, o, Persist(defaults, u), k);
      assert k in u ==> Sanitize(u)[k] == SanitizedValue(k, u[k]);
    }
  }

  /**
   * When the file at the command-line path names another path, options are written there and
   * never read: whatever is persisted later, a restart is as the first start was.
   */
  lemma RedirectedUpdatesAreLost(defaults: Options, o: Options, fs: Files, u: Options)
    requires ConfigPath in o && Get(u, ConfigPath) != o[ConfigPath]
    ensures Started(defaults, o, Save(defaults, u, fs)) == Started(defaults, o, fs)
  {
  }

  /** The file at the command-line path gives another path, and the command line sets none. */
  predicate Redirected(defaults: Options, o: Options, fs: Files) {
    var file := FileAt(fs, Get(o, ConfigPath));
    ConfigPath in o && !SetIn(defaults, o, ConfigPath) && ConfigPath in file && file[ConfigPath] != o[ConfigPath]
  }

  /** A start is redirected exactly then. */
  lemma RedirectedExactly(defaults: Options, o: Options, fs: Files)
    requires Sanitize(o) == o && ConfigPath in o
    ensures Get(Started(defaults, o, fs), ConfigPath) != o[ConfigPath] <==> Redirected(defaults, o, fs)
  {
    LoadAt(defaults, o, FileAt(fs, o[ConfigPath]), ConfigPath);
  }

  // ----- chairman addresses -------------------------------------------------------------------

  datatype Address = Address(host: string, port: int)

  function PrintAddress(a: Address): string {
    a.host + [':'] + PrintInt(a.port)
  }

  /** `host, port = server.split(":")` and `int(port)`; either may raise a ValueError. */
  function ReadAddress(s: string): Option<Address> {
    var parts := Split(s, ':');
    if |parts| != 2 then None
    else match ReadInt(parts[1])
      case None => None
      case Some(port) => Some(Address(parts[0], port))
  }

  function ReadEntry(v: Value): seq<Address> {
    match v
    case Str(s) => (match ReadAddress(s) case Some(a) => [a] case None => [])
    case _ => [] // AttributeError
  }

  /** The addresses of the entries that can be read, in order. */
  function ReadAll(vs: seq<Value>): seq<Address> {
    if vs == [] then [] else ReadAll(vs[..|vs| - 1]) + ReadEntry(vs[|vs| - 1])
  }

  function PrintAll(addresses: seq<Address>): seq<Value> {
    seq(|addresses|, i requires 0 <= i < |addresses| => Str(PrintAddress(addresses[i])))
  }

  function WithoutColons(addresses: seq<Address>): seq<Address> {
    if addresses == [] then []
    else
      var a := addresses[|addresses| - 1];
      WithoutColons(addresses[..|addresses| - 1]) + if ':' in a.host then [] else [a]
  }

  lemma ReadPrintedAddress(a: Address)
    ensures ReadAddress(PrintAddress(a)) == if ':' in a.host then None else Some(a)
  {
    var port := PrintInt(a.port);
    assert ':' !in port;
    SplitAt(a.host, ':', port);
    SplitWithout(a.host, ':');
    SplitWithout(port, ':');
    ReadPrintedInt(a.port);
  }

  /** An entry is read exactly when it has one colon and a number after it. */
  lemma ReadAddressExactly(host: string, port: string, more: string)
    requires ':' !in host && ':' !in port
    ensures ReadAddress(host) == None
    ensures ReadAddress(host + [':'] + port) ==
              if ReadInt(port).Some? then Some(Address(host, ReadInt(port).value)) else None
    ensures ReadAddress(host + [':'] + (port + [':'] + more)) == None
  {
    SplitWithout(host, ':');
    SplitWithout(port, ':');
    SplitAt(host, ':', port);
    SplitAt(port, ':', more);
    SplitAt(host, ':', port + [':'] + more);
  }

  /** Entries are read one by one, in order; what is no string is dropped. */
  lemma {:induction false} ReadAllInOrder(a: seq<Value>, b: seq<Value>, v: Value)
    ensures ReadAll(a + b) == ReadAll(a) + ReadAll(b)
    ensures ReadAll([v]) == if v.Str? && ReadAddress(v.s).Some? then [ReadAddress(v.s).value] else []
    decreases |b|
  {
    assert [v][..0] == [] && ReadAll([]) == [];
    if b == [] {
      assert a + b == a;
    } else {
      assert (a + b)[..|a + b| - 1] == a + b[..|b| - 1];
      ReadAllInOrder(a, b[..|b| - 1], v);
    }
  }

  /** Printing and reading back drops exactly the addresses whose host has a colon. */
  lemma {:induction false} AddressesRoundTrip(addresses: seq<Address>)
    ensures ReadAll(PrintAll(addresses)) == WithoutColons(addresses)
  {
    if addresses != [] {
      var front := addresses[..|addresses| - 1];
      AddressesRoundTrip(front);
      ReadPrintedAddress(addresses[|addresses| - 1]);
      assert PrintAll(addresses)[..|addresses| - 1] == PrintAll(front);
    }
  }

  /** So an address by a host with colons is lost. */
  lemma ColonHostIsLost()
    ensures ReadAll(PrintAll([Address("::1", 80)])) == []
  {
    var a := Address("::1", 80);
    assert a.host[0] == ':';
    AddressesRoundTrip([a]);
    assert [a][..0] == [] && WithoutColons([]) == [];
  }

  /** `_parse_chairman_list`. */
  method ParseChairmanList(vs: seq<Value>) returns (servers: seq<Address>)
    ensures servers == ReadAll(vs)
  {
    servers := [];
    for i := 0 to |vs|
      invariant servers == ReadAll(vs[..i])
    {
      assert vs[..i + 1][..i] == vs[..i];
      if vs[i].Str? {
        var a := ReadAddress(vs[i].s);
        if a.Some? {
          servers := servers + [a.value];
        }
      }
    }
    assert vs[..|vs|] == vs;
  }

  // ----- provisioning -----------------------------------------------------------------------------

  datatype StatsPlugin = StatsPlugin(enabled: bool, endpoint: Value, port: Value)

  datatype Request = Request(
    memoryOvercommit: Option<real>,
    cpuOvercommit: Option<real>,
    availabilityZone: Value,
    datastores: Option<seq<string>>,
    networks: Option<seq<string>>,
    address: Option<(Value, Value)>,
    stats: Option<StatsPlugin>,
    chairman: seq<Address>,
    imageDatastores: seq<(string, bool)>,
    managementOnly: bool,
    hostId: Value,
    deploymentId: Value)

  const DEFAULT_PORT_NUMBER := Num(8835.0)
  const DEFAULT_CPU_OVERCOMMIT := 16.0

  /** An overcommit that is given and not zero must be at least one. */
  predicate BadOvercommit(x: Option<real>) {
    x.Some? && x.value != 0.0 && x.value < 1.0
  }

  function OvercommitOr(x: Option<real>, default: real): Value {
    Num(if x.Some? && x.value != 0.0 then x.value else default)
  }

  function ImageList(ds: seq<(string, bool)>): Value {
    Lst(seq(|ds|, i requires 0 <= i < |ds| =>
          Dct(map["name" := Str(ds[i].0), "used_for_vms" := Num(if ds[i].1 then 1.0 else 0.0)])))
  }

  /** A list of names, or None. */
  function Names(names: Option<seq<string>>): Value {
    if names.None? then Nil
    else Lst(seq(|names.value|, i requires 0 <= i < |names.value| => Str(names.value[i])))
  }

  datatype Setting = Setting(key: Key, value: Value)

  // What a request sets, in the order in which the update goes through it.

  function Placement(r: Request): seq<Setting> {
    [Setting(AvailabilityZone, r.availabilityZone), Setting(Datastores, Names(r.datastores)),
     Setting(VmNetwork, Names(r.networks))]
  }

  function Addressing(r: Request): seq<Setting> {
    [Setting(Hostname, if r.address.Some? then r.address.value.0 else Nil),
     Setting(HostPort, if r.address.Some? then r.address.value.1 else DEFAULT_PORT_NUMBER)]
  }

  function Plugin(r: Request): seq<Setting> {
    if r.stats.None? || !r.stats.value.enabled then []
    else [Setting(StatsStoreEndpoint, r.stats.value.endpoint), Setting(StatsStorePort, r.stats.value.port),
          Setting(StatsEnabled, Num(1.0))]
  }

  /** Options whose listeners are told of a change, which needs no reboot. */
  function Told(r: Request): seq<Setting> {
    [Setting(Chairman, Lst(PrintAll(r.chairman))),
     Setting(MemoryOvercommit, OvercommitOr(r.memoryOvercommit, 1.0)),
     Setting(CpuOvercommit, OvercommitOr(r.cpuOvercommit, DEFAULT_CPU_OVERCOMMIT))]
  }

  function Images(r: Request): seq<Setting> {
    (if r.imageDatastores != [] then [Setting(ImageDatastores, ImageList(r.imageDatastores))] else []) +
    (if r.managementOnly then [Setting(ManagementOnly, Num(1.0))] else [])
  }

  function Identity(r: Request): seq<Setting> {
    [Setting(HostId, r.hostId), Setting(DeploymentId, r.deploymentId)]
  }

  function Before(r: Request): seq<Setting> {
    Placement(r) + Addressing(r) + Plugin(r)
  }

  function Behind(r: Request): seq<Setting> {
    Images(r) + Identity(r)
  }

  /** Everything a request sets. */
  function Settings(r: Request): seq<Setting> {
    Before(r) + Told(r) + Behind(r)
  }

  /** `_check_and_set_attr`: an absent option that is to be None stays absent. */
  function PutOne(u: Options, x: Setting): Options {
    if Get(u, x.key) == x.value then u else u[x.key := x.value]
  }

  function Put(u: Options, ss: seq<Setting>): Options {
    if ss == [] then u else PutOne(Put(u, ss[..|ss| - 1]), ss[|ss| - 1])
  }

  /** Some setting, when its turn comes, changes the option. */
  predicate Changes(u: Options, ss: seq<Setting>) {
    ss != [] &&
    var front, x := ss[..|ss| - 1], ss[|ss| - 1];
    Changes(u, front) || Get(Put(u, front), x.key) != x.value
  }

  lemma {:induction false} PutThen(u: Options, a: seq<Setting>, b: seq<Setting>)
    ensures Put(u, a + b) == Put(Put(u, a), b)
    ensures Changes(u, a + b) <==> Changes(u, a) || Changes(Put(u, a), b)
  {
    if b == [] {
      assert a + b == a;
    } else {
      assert (a + b)[..|a + b| - 1] == a + b[..|b| - 1];
      PutThen(u, a, b[..|b| - 1]);
    }
  }

  lemma PutSingle(u: Options, x: Setting)
    ensures Put(u, [x]) == PutOne(u, x) && (Changes(u, [x]) <==> Get(u, x.key) != x.value)
  {
    assert [x][..0] == [] && Put(u, []) == u && !Changes(u, []);
  }

  predicate Sets(ss: seq<Setting>, k: Key) {
    exists i :: 0 <= i < |ss| && ss[i].key == k
  }

  predicate Distinct(ss: seq<Setting>) {
    forall i, j :: 0 <= i < j < |ss| ==> ss[i].key != ss[j].key
  }

  /** What setting options one by one means: they have those values, all others are as before. */
  lemma {:induction false} PutExactly(u: Options, ss: seq<Setting>, k: Key)
    requires Distinct(ss)
    ensures !Sets(ss, k) ==> Get(Put(u, ss), k) == Get(u, k)
    ensures forall i :: 0 <= i < |ss| && ss[i].key == k ==> Get(Put(u, ss), k) == ss[i].value
  {
    if ss != [] {
      var front := ss[..|ss| - 1];
      PutExactly(u, front, k);
      assert forall i :: 0 <= i < |front| ==> front[i] == ss[i];
    }
  }

  /** Some setting differs from what the option was before any of them. */
  predicate Differs(u: Options, ss: seq<Setting>) {
    exists i :: 0 <= i < |ss| && Get(u, ss[i].key) != ss[i].value
  }

  lemma {:induction false} ChangesExactly(u: Options, ss: seq<Setting>)
    requires Distinct(ss)
    ensures Changes(u, ss) <==> Differs(u, ss)
  {
    if ss != [] {
      var front, x := ss[..|ss| - 1], ss[|ss| - 1];
      ChangesExactly(u, front);
      PutExactly(u, front, x.key);
      assert forall i :: 0 <= i < |front| ==> front[i] == ss[i];
      assert !Sets(front, x.key);
      if Differs(u, front) {
        var i :| 0 <= i < |front| && Get(u, front[i].key) != front[i].value;
        assert Get(u, ss[i].key) != ss[i].value;
      }
    }
  }

  /** The settings are all of these options, each at most once. */
  predicate Within(ss: seq<Setting>, ks: set<Key>) {
    Distinct(ss) && forall i :: 0 <= i < |ss| ==> ss[i].key in ks
  }

  lemma WithinBoth(a: seq<Setting>, ka: set<Key>, b: seq<Setting>, kb: set<Key>)
    requires Within(a, ka) && Within(b, kb) && ka !! kb
    ensures Within(a + b, ka + kb)
  {
  }

  const BEFORE := {AvailabilityZone, Datastores, VmNetwork, Hostname, HostPort, StatsStoreEndpoint,
                   StatsStorePort, StatsEnabled}
  const PLUGIN := {StatsStoreEndpoint, StatsStorePort, StatsEnabled}
  const IMAGES := {ImageDatastores, ManagementOnly}
  const TOLD := {Chairman, MemoryOvercommit, CpuOvercommit}
  const BEHIND := {ImageDatastores, ManagementOnly, HostId, DeploymentId}

  lemma BeforeWithin(r: Request)
    ensures Within(Before(r), BEFORE)
  {
    var p := {AvailabilityZone, Datastores, VmNetwork};
    var a := {Hostname, HostPort};
    PluginWithin(r);
    WithinBoth(Placement(r), p, Addressing(r), a);
    WithinBoth(Placement(r) + Addressing(r), p + a, Plugin(r), PLUGIN);
    assert p + a + PLUGIN == BEFORE;
  }

  lemma PluginWithin(r: Request)
    ensures Within(Plugin(r), PLUGIN)
  {
  }

  lemma ImagesWithin(r: Request)
    ensures Within(Images(r), IMAGES)
  {
  }

  lemma ToldWithin(r: Request)
    ensures Within(Told(r), TOLD)
  {
  }

  lemma BehindWithin(r: Request)
    ensures Within(Behind(r), BEHIND)
  {
    var d := {HostId, DeploymentId};
    ImagesWithin(r);
    WithinBoth(Images(r), IMAGES, Identity(r), d);
    assert IMAGES + d == BEHIND;
  }

  /** No option is set twice by one request. */
  lemma SettingsWithin(r: Request)
    ensures Within(Before(r) + Told(r), BEFORE + TOLD)
    ensures Within(Before(r) + Behind(r), BEFORE + BEHIND)
    ensures Within(Settings(r), BEFORE + TOLD + BEHIND)
  {
    BeforeWithin(r);
    ToldWithin(r);
    BehindWithin(r);
    WithinBoth(Before(r), BEFORE, Told(r), TOLD);
    WithinBoth(Before(r), BEFORE, Behind(r), BEHIND);
    WithinBoth(Before(r) + Told(r), BEFORE + TOLD, Behind(r), BEHIND);
  }

  lemma NotWithin(ss: seq<Setting>, ks: set<Key>, u: Options, k: Key)
    requires Within(ss, ks) && k !in ks
    ensures Get(Put(u, ss), k) == Get(u, k)
  {
    PutExactly(u, ss, k);
  }

  // ----- the life of an agent ---------------------------------------------------------------------

  /** The options after an update. */
  function Updated(u: Options, r: Request): Options {
    Put(u, Settings(r))
  }

  lemma SettingIsMade(u: Options, r: Request, x: Setting)
    requires x in Settings(r)
    ensures Get(Updated(u, r), x.key) == x.value
  {
    SettingsWithin(r);
    PutExactly(u, Settings(r), x.key);
  }

  lemma SetsBoth(a: seq<Setting>, b: seq<Setting>, k: Key)
    ensures Sets(a + b, k) ==> Sets(a, k) || Sets(b, k)
  {
  }

  lemma OnlyInOptionalParts(r: Request, k: Key)
    requires k in PLUGIN + IMAGES
    ensures !Sets(Placement(r), k) && !Sets(Addressing(r), k) && !Sets(Told(r), k) && !Sets(Identity(r), k)
  {
  }

  /** What a request leaves out stays. */
  lemma NotMade(u: Options, r: Request, k: Key)
    requires k in PLUGIN + IMAGES && !Sets(Plugin(r), k) && !Sets(Images(r), k)
    ensures Get(Updated(u, r), k) == Get(u, k)
  {
    assert !Sets(Settings(r), k) by {
      OnlyInOptionalParts(r, k);
      SetsBoth(Placement(r), Addressing(r), k);
      SetsBoth(Placement(r) + Addressing(r), Plugin(r), k);
      SetsBoth(Before(r), Told(r), k);
      SetsBoth(Images(r), Identity(r), k);
      SetsBoth(Before(r) + Told(r), Behind(r), k);
    }
    assert Distinct(Settings(r)) by { SettingsWithin(r); }
    PutExactly(u, Settings(r), k);
  }

  /** The value is the list of these names, or None. */
  predicate IsNames(v: Value, names: Option<seq<string>>) {
    if names.None? then v == Nil
    else v.Lst? && |v.items| == |names.value| && forall i :: 0 <= i < |v.items| ==> v.items[i] == Str(names.value[i])
  }

  lemma PlacementExactly(u: Options, r: Request)
    ensures var v := Updated(u, r);
            && Get(v, AvailabilityZone) == r.availabilityZone
            && IsNames(Get(v, Datastores), r.datastores)
            && IsNames(Get(v, VmNetwork), r.networks)
  {
    var ss := Placement(r);
    assert ss[0] in ss && ss[1] in ss && ss[2] in ss;
    SettingIsMade(u, r, ss[0]);
    SettingIsMade(u, r, ss[1]);
    SettingIsMade(u, r, ss[2]);
  }

  lemma AddressingExactly(u: Options, r: Request)
    ensures var v := Updated(u, r);
            && Get(v, Hostname) == (if r.address.Some? then r.address.value.0 else Nil)
            && Get(v, HostPort) == if r.address.Some? then r.address.value.1 else Num(8835.0)
  {
    var ss := Addressing(r);
    assert ss[0] in ss && ss[1] in ss;
    SettingIsMade(u, r, ss[0]);
    SettingIsMade(u, r, ss[1]);
  }

  lemma PluginExactly(u: Options, r: Request)
    ensures var v := Updated(u, r);
            if r.stats.Some? && r.stats.value.enabled
            then Get(v, StatsStoreEndpoint) == r.stats.value.endpoint && Get(v, StatsStorePort) == r.stats.value.port &&
                 Get(v, StatsEnabled) == Num(1.0)
            else Get(v, StatsStoreEndpoint) == Get(u, StatsStoreEndpoint) &&
                 Get(v, StatsStorePort) == Get(u, StatsStorePort) && Get(v, StatsEnabled) == Get(u, StatsEnabled)
  {
    var ss := Plugin(r);
    if ss != [] {
      assert ss[0] in ss && ss[1] in ss && ss[2] in ss;
      SettingIsMade(u, r, ss[0]);
      SettingIsMade(u, r, ss[1]);
      SettingIsMade(u, r, ss[2]);
    } else {
      ImagesWithin(r);
      NotMade(u, r, StatsStoreEndpoint);
      NotMade(u, r, StatsStorePort);
      NotMade(u, r, StatsEnabled);
    }
  }

  /** The value is a list of one `host:port` for each address. */
  predicate IsServers(v: Value, addresses: seq<Address>) {
    v.Lst? && |v.items| == |addresses| &&
    forall i :: 0 <= i < |v.items| ==> v.items[i] == Str(addresses[i].host + ":" + PrintInt(addresses[i].port))
  }

  predicate IsOvercommit(v: Value, x: Option<real>, default: real) {
    v == Num(if x.None? || x.value == 0.0 then default else x.value)
  }

  lemma ToldExactly(u: Options, r: Request)
    ensures var v := Updated(u, r);
            && IsServers(Get(v, Chairman), r.chairman)
            && IsOvercommit(Get(v, MemoryOvercommit), r.memoryOvercommit, 1.0)
            && IsOvercommit(Get(v, CpuOvercommit), r.cpuOvercommit, 16.0)
  {
    var ss := Told(r);
    assert ss[0] in ss && ss[1] in ss && ss[2] in ss;
    SettingIsMade(u, r, ss[0]);
    SettingIsMade(u, r, ss[1]);
    SettingIsMade(u, r, ss[2]);
  }

  /** The value is a list of one record for each image datastore. */
  predicate IsImages(v: Value, ds: seq<(string, bool)>) {
    v.Lst? && |v.items| == |ds| &&
    forall i :: 0 <= i < |v.items| ==>
      v.items[i] == Dct(map["name" := Str(ds[i].0), "used_for_vms" := Num(if ds[i].1 then 1.0 else 0.0)])
  }

  lemma ImagesExactly(u: Options, r: Request)
    ensures var v := Updated(u, r);
            && (if r.imageDatastores == [] then Get(v, ImageDatastores) == Get(u, ImageDatastores)
                else IsImages(Get(v, ImageDatastores), r.imageDatastores))
            && Get(v, ManagementOnly) == if r.managementOnly then Num(1.0) else Get(u, ManagementOnly)
  {
    var ss := Images(r);
    PluginWithin(r);
    if r.imageDatastores == [] {
      NotMade(u, r, ImageDatastores);
    } else {
      assert ss[0] in ss;
      SettingIsMade(u, r, ss[0]);
    }
    if r.managementOnly {
      assert ss[|ss| - 1] in ss;
      SettingIsMade(u, r, ss[|ss| - 1]);
    } else {
      NotMade(u, r, ManagementOnly);
    }
  }

  lemma IdentityExactly(u: Options, r: Request)
    ensures Get(Updated(u, r), HostId) == r.hostId && Get(Updated(u, r), DeploymentId) == r.deploymentId
  {
    var ss := Identity(r);
    assert ss[0] in ss && ss[1] in ss;
    SettingIsMade(u, r, ss[0]);
    SettingIsMade(u, r, ss[1]);
  }

  /** Nothing else is touched. */
  lemma OthersUntouched(u: Options, r: Request, k: Key)
    requires k !in BEFORE + TOLD + BEHIND
    ensures Get(Updated(u, r), k) == Get(u, k)
  {
    SettingsWithin(r);
    NotWithin(Settings(r), BEFORE + TOLD + BEHIND, u, k);
  }

  predicate Bad(r: Request) {
    BadOvercommit(r.memoryOvercommit) || BadOvercommit(r.cpuOvercommit)
  }

  datatype Agent = Agent(options: Options, files: Files)

  datatype Event = Provision(request: Request) | Restart

  function Start(defaults: Options, o: Options, fs: Files): Agent {
    Agent(Started(defaults, o, fs), Boot(defaults, o, fs))
  }

  function Step(defaults: Options, o: Options, a: Agent, e: Event): Agent {
    match e
    case Restart => Start(defaults, o, a.files)
    case Provision(r) =>
      if Bad(r) then a
      else Agent(Updated(a.options, r), Save(defaults, Updated(a.options, r), a.files))
  }

  /** The agent after a start on `fs` with a command line and then any updates and restarts. */
  function After(defaults: Options, commandLine: Options, fs: Files, es: seq<Event>): Agent {
    if es == [] then Start(defaults, Sanitize(commandLine), fs)
    else
      Step(defaults, Sanitize(commandLine), After(defaults, commandLine, fs, es[..|es| - 1]), es[|es| - 1])
  }

  lemma SanitizeTwice(o: Options)
    ensures Sanitize(Sanitize(o)) == Sanitize(o)
  {
  }

  /** No string is given for a list. */
  predicate Listy(ss: seq<Setting>) {
    forall i :: 0 <= i < |ss| ==> SanitizedValue(ss[i].key, ss[i].value) == ss[i].value
  }

  lemma SettingsAreListy(r: Request)
    ensures Listy(Settings(r))
  {
    ListyBoth(Placement(r), Addressing(r));
    ListyBoth(Placement(r) + Addressing(r), Plugin(r));
    ListyBoth(Before(r), Told(r));
    ListyBoth(Images(r), Identity(r));
    ListyBoth(Before(r) + Told(r), Behind(r));
  }

  lemma ListyBoth(a: seq<Setting>, b: seq<Setting>)
    requires Listy(a) && Listy(b)
    ensures Listy(a + b)
  {
  }

  lemma PutOneIsSanitized(u: Options, x: Setting)
    requires Sanitize(u) == u && SanitizedValue(x.key, x.value) == x.value
    ensures Sanitize(PutOne(u, x)) == PutOne(u, x)
  {
    var v := PutOne(u, x);
    forall k | k in v
      ensures SanitizedValue(k, v[k]) == v[k]
    {
      assert k in u ==> Sanitize(u)[k] == u[k];
    }
  }

  lemma {:induction false} PutIsSanitized(u: Options, ss: seq<Setting>)
    requires Sanitize(u) == u && Listy(ss)
    ensures Sanitize(Put(u, ss)) == Put(u, ss)
  {
    if ss != [] {
      PutIsSanitized(u, ss[..|ss| - 1]);
      PutOneIsSanitized(Put(u, ss[..|ss| - 1]), ss[|ss| - 1]);
    }
  }

  lemma UpdatedIsSanitized(u: Options, r: Request)
    requires Sanitize(u) == u
    ensures Sanitize(Updated(u, r)) == Updated(u, r) && Get(Updated(u, r), ConfigPath) == Get(u, ConfigPath)
  {
    SettingsAreListy(r);
    PutIsSanitized(u, Settings(r));
    SettingsWithin(r);
    NotWithin(Settings(r), BEFORE + TOLD + BEHIND, u, ConfigPath);
  }

  /**
   * What holds of the agent at any time. Redirected, it writes elsewhere and the file it starts
   * from is as at first; otherwise that file is what was persisted last.
   */
  predicate AgentInv(defaults: Options, o: Options, fs: Files, a: Agent) {
    && Sanitize(a.options) == a.options
    && if Redirected(defaults, o, fs)
       then Get(a.options, ConfigPath) != Get(o, ConfigPath) &&
            FileAt(a.files, Get(o, ConfigPath)) == FileAt(fs, Get(o, ConfigPath))
       else Get(a.options, ConfigPath) == Get(o, ConfigPath) &&
            FileAt(a.files, Get(o, ConfigPath)) == Persist(defaults, a.options)
  }

  /** A start from the first file, or from what was persisted last, establishes it. */
  lemma StartKeeps(defaults: Options, o: Options, fs: Files, files: Files, u: Options)
    requires Sanitize(o) == o && ConfigPath in o
    requires FileAt(files, o[ConfigPath]) == FileAt(fs, o[ConfigPath]) ||
             (!Redirected(defaults, o, fs) && Sanitize(u) == u && Get(u, ConfigPath) == o[ConfigPath] &&
              FileAt(files, o[ConfigPath]) == Persist(defaults, u))
    ensures AgentInv(defaults, o, fs, Start(defaults, o, files))
  {
    var file := FileAt(files, o[ConfigPath]);
    LoadAt(defaults, o, file, ConfigPath);
    SanitizeTwice(map k | k in o :: if k in file && Unset(defaults, o, k) then file[k] else o[k]);
  }

  lemma {:induction false} AgentRun(defaults: Options, commandLine: Options, fs: Files, es: seq<Event>)
    requires ConfigPath in commandLine
    ensures AgentInv(defaults, Sanitize(commandLine), fs, After(defaults, commandLine, fs, es))
  {
    var o := Sanitize(commandLine);
    SanitizeTwice(commandLine);
    if es == [] {
      StartKeeps(defaults, o, fs, fs, o);
    } else {
      AgentRun(defaults, commandLine, fs, es[..|es| - 1]);
      var a := After(defaults, commandLine, fs, es[..|es| - 1]);
      match es[|es| - 1] {
        case Restart => StartKeeps(defaults, o, fs, a.files, a.options);
        case Provision(r) => UpdatedIsSanitized(a.options, r);
      }
    }
  }

  /**
   * Restart fidelity, for every command line, config files, and run of updates and restarts:
   * what a restart then gives each option. Redirected, it is what the very first start gave;
   * otherwise the command-line value if that is set, else the running value if that is set,
   * else the unset command-line value. Options the parser does not declare are gone.
   */
  lemma RestartAfterRun(defaults: Options, commandLine: Options, fs: Files, es: seq<Event>, k: Key)
    requires ConfigPath in commandLine
    ensures var o := Sanitize(commandLine);
            var a := After(defaults, commandLine, fs, es);
            var after := Started(defaults, o, a.files);
            && (k in after <==> k in o)
            && (k in o && Redirected(defaults, o, fs) ==> after[k] == Started(defaults, o, fs)[k])
            && (k in o && !Redirected(defaults, o, fs) ==>
                  && after[k] == (if !SetIn(defaults, o, k) && SetIn(defaults, a.options, k) then a.options[k] else o[k])
                  && (!SetIn(defaults, o, k) && !SetIn(defaults, a.options, k) ==> Unset(defaults, after, k)))
  {
    var o := Sanitize(commandLine);
    var a := After(defaults, commandLine, fs, es);
    AgentRun(defaults, commandLine, fs, es);
    SanitizeTwice(commandLine);
    if !Redirected(defaults, o, fs) {
      RestartExactly(defaults, o, a.files, a.options, k);
      assert FileAt(Save(defaults, a.options, a.files), o[ConfigPath]) == FileAt(a.files, o[ConfigPath]);
    }
  }

  /** A restart keeps every option that is set and that the command line leaves unset. */
  predicate Faithful(defaults: Options, o: Options, a: Agent) {
    forall k :: k in o && !SetIn(defaults, o, k) && SetIn(defaults, a.options, k) ==>
      Get(Started(defaults, o, a.files), k) == a.options[k]
  }

  /**
   * For command lines that leave the host id open, restarts are faithful after every run if and
   * only if the first config file does not redirect.
   */
  lemma FaithfulExactly(defaults: Options, commandLine: Options, fs: Files)
    requires ConfigPath in commandLine && HostId in commandLine && !SetIn(defaults, commandLine, HostId)
    ensures (forall es :: Faithful(defaults, Sanitize(commandLine), After(defaults, commandLine, fs, es))) <==>
              !Redirected(defaults, Sanitize(commandLine), fs)
  {
    var o := Sanitize(commandLine);
    if Redirected(defaults, o, fs) {
      var es := RedirectLosesHostId(defaults, commandLine, fs);
    } else {
      forall es
        ensures Faithful(defaults, o, After(defaults, commandLine, fs, es))
      {
        forall k
          ensures var a := After(defaults, commandLine, fs, es);
                  k in o && !SetIn(defaults, o, k) && SetIn(defaults, a.options, k) ==>
                    Get(Started(defaults, o, a.files), k) == a.options[k]
        {
          RestartAfterRun(defaults, commandLine, fs, es, k);
        }
      }
    }
  }

  /** A request for nothing but a host id. */
  function JustHostId(id: string): Request {
    Request(None, None, Nil, None, None, None, None, [], [], false, Str(id), Nil)
  }

  lemma FreshId(x: Value, y: Value) returns (id: string)
    ensures id != "" && Str(id) != x && Str(id) != y
  {
    assert "a"[0] != "b"[0] && "a"[0] != "c"[0] && "b"[0] != "c"[0];
    id := if Str("a") != x && Str("a") != y then "a" else if Str("b") != x && Str("b") != y then "b" else "c";
  }

  lemma HostIdAfterUpdate(defaults: Options, u: Options, id: string)
    requires HostId in u && id != "" && Str(id) != Get(defaults, HostId)
    ensures var v := Updated(u, JustHostId(id)); SetIn(defaults, v, HostId) && v[HostId] == Str(id)
  {
    var r := JustHostId(id);
    var ss := Settings(r);
    SettingsWithin(r);
    PutExactly(u, ss, HostId);
    assert ss[|ss| - 2] == Setting(HostId, Str(id));
  }

  /** Redirected, one update to a new host id is lost by the next restart. */
  lemma RedirectLosesHostId(defaults: Options, commandLine: Options, fs: Files) returns (es: seq<Event>)
    requires ConfigPath in commandLine && HostId in commandLine && !SetIn(defaults, commandLine, HostId)
    requires Redirected(defaults, Sanitize(commandLine), fs)
    ensures !Faithful(defaults, Sanitize(commandLine), After(defaults, commandLine, fs, es))
  {
    var o := Sanitize(commandLine);
    var first := Started(defaults, o, fs);
    var id := FreshId(Get(defaults, HostId), Get(first, HostId));
    es := [Provision(JustHostId(id))];
    assert es[..0] == [];
    var a := After(defaults, commandLine, fs, es);
    assert a.options == Updated(first, JustHostId(id)) by { assert After(defaults, commandLine, fs, []).options == first; }
    HostIdAfterUpdate(defaults, first, id);
    RestartAfterRun(defaults, commandLine, fs, es, HostId);
  }

  /** There are such files: a start, one update and a restart, after which the update is gone. */
  lemma RedirectIsReal() returns (defaults: Options, fs: Files, es: seq<Event>)
    ensures Redirected(defaults, Sanitize(defaults), fs)
    ensures !Faithful(defaults, Sanitize(defaults), After(defaults, defaults, fs, es))
  {
    defaults := map[ConfigPath := Str("a"), HostId := Nil];
    fs := map[Str("a") := map[ConfigPath := Str("b")]];
    assert "a"[0] != "b"[0];
    es := RedirectLosesHostId(defaults, defaults, fs);
  }

  /**
   * Without a redirect, after every run: an update that is accepted survives a restart, in every
   * option it set to something other than unset and that the command line leaves unset.
   */
  lemma UpdateSurvivesRestart(defaults: Options, commandLine: Options, fs: Files, es: seq<Event>, r: Request, i: nat)
    requires ConfigPath in commandLine && !Redirected(defaults, Sanitize(commandLine), fs) && !Bad(r)
    requires i < |Settings(r)|
    requires var o, k := Sanitize(commandLine), Settings(r)[i].key;
             var v := After(defaults, commandLine, fs, es + [Provision(r)]).options;
             k in o && !SetIn(defaults, o, k) && SetIn(defaults, v, k)
    ensures var k := Settings(r)[i].key;
            Get(After(defaults, commandLine, fs, es + [Provision(r), Restart]).options, k) == Settings(r)[i].value
  {
    var es1, es2 := es + [Provision(r)], es + [Provision(r), Restart];
    assert es1[..|es|] == es && es2[..|es| + 1] == es1;
    var k := Settings(r)[i].key;
    RestartAfterRun(defaults, commandLine, fs, es1, k);
    SettingsWithin(r);
    PutExactly(After(defaults, commandLine, fs, es).options, Settings(r), k);
  }

  class AgentConfig {
    const defaults: Options
    var options: Options
    var files: Files
    var rebootRequired: bool

    /** Parsing, loading and persisting, with the command line already read into `commandLine`. */
    constructor (defaults: Options, commandLine: Options, files: Files)
      ensures this.defaults == defaults && !rebootRequired
      ensures Agent(options, this.files) == Start(defaults, Sanitize(commandLine), files)
    {
      this.defaults, this.options, this.files, rebootRequired := defaults, Sanitize(commandLine), files, false;
      new;
      LoadConfig(FileAt(files, Get(options, ConfigPath)));
      PersistConfig();
    }

    method LoadConfig(file: Options)
      modifies this`options
      ensures options == Load(defaults, old(options), file)
    {
      var todo := file.Keys;
      while todo != {}
        invariant todo <= file.Keys
        invariant options == map k | k in old(options) ::
                    if k in file && k !in todo && Unset(defaults, old(options), k) then file[k] else old(options)[k]
        decreases todo
      {
        var k :| k in todo;
        if Unset(defaults, options, k) {
          options := options[k := file[k]];
        }
        todo := todo - {k};
      }
      options := Sanitize(options);
    }

    method PersistConfig()
      modifies this`files
      ensures files == Save(defaults, options, old(files))
    {
      var config: Options := map[];
      var todo := options.Keys;
      while todo != {}
        invariant todo <= options.Keys
        invariant config == map k | k in options && k !in todo && !Unset(defaults, options, k) :: options[k]
        decreases todo
      {
        var k :| k in todo;
        if !Unset(defaults, options, k) {
          config := config[k := options[k]];
        }
        todo := todo - {k};
      }
      assert config == Persist(defaults, options);
      files := files[Get(options, ConfigPath) := config];
    }

    method CheckAndSetAttr(k: Key, v: Value) returns (changed: bool)
      modifies this`options
      ensures options == Put(old(options), [Setting(k, v)])
      ensures changed <==> Changes(old(options), [Setting(k, v)])
    {
      PutSingle(options, Setting(k, v));
      changed := Get(options, k) != v;
      if changed {
        options := options[k := v];
      }
    }

    method SetPlacement(r: Request) returns (changed: bool)
      modifies this`options
      ensures options == Put(old(options), Placement(r)) && (changed <==> Changes(old(options), Placement(r)))
    {
      ghost var u, ss := options, Placement(r);
      var c0 := CheckAndSetAttr(AvailabilityZone, r.availabilityZone);
      var c1 := CheckAndSetAttr(Datastores, Names(r.datastores));
      PutThen(u, [ss[0]], [ss[1]]);
      var c2 := CheckAndSetAttr(VmNetwork, Names(r.networks));
      PutThen(u, [ss[0]] + [ss[1]], [ss[2]]);
      assert [ss[0]] + [ss[1]] + [ss[2]] == ss;
      changed := c0 || c1 || c2;
    }

    method SetAddress(r: Request) returns (changed: bool)
      modifies this`options
      ensures options == Put(old(options), Addressing(r)) && (changed <==> Changes(old(options), Addressing(r)))
    {
      var host, port := Nil, DEFAULT_PORT_NUMBER;
      if r.address.Some? {
        host, port := r.address.value.0, r.address.value.1;
      }
      ghost var u, ss := options, Addressing(r);
      var c0 := CheckAndSetAttr(Hostname, host);
      var c1 := CheckAndSetAttr(HostPort, port);
      PutThen(u, [ss[0]], [ss[1]]);
      assert [ss[0]] + [ss[1]] == ss;
      changed := c0 || c1;
    }

    method SetStats(r: Request) returns (changed: bool)
      modifies this`options
      ensures options == Put(old(options), Plugin(r)) && (changed <==> Changes(old(options), Plugin(r)))
    {
      if r.stats.None? || !r.stats.value.enabled {
        return false;
      }
      ghost var u, ss := options, Plugin(r);
      var c0 := CheckAndSetAttr(StatsStoreEndpoint, r.stats.value.endpoint);
      var c1 := CheckAndSetAttr(StatsStorePort, r.stats.value.port);
      PutThen(u, [ss[0]], [ss[1]]);
      var c2 := CheckAndSetAttr(StatsEnabled, Num(1.0));
      PutThen(u, [ss[0]] + [ss[1]], [ss[2]]);
      assert [ss[0]] + [ss[1]] + [ss[2]] == ss;
      changed := c0 || c1 || c2;
    }

    method SetTold(r: Request) returns (c0: bool, c1: bool, c2: bool)
      modifies this`options
      ensures options == Put(old(options), Told(r))
      ensures c0 <==> Get(old(options), Chairman) != Told(r)[0].value
      ensures c1 <==> Get(old(options), MemoryOvercommit) != Told(r)[1].value
      ensures c2 <==> Get(old(options), CpuOvercommit) != Told(r)[2].value
    {
      ghost var u, ss := options, Told(r);
      PutSingle(u, ss[0]);
      c0 := CheckAndSetAttr(Chairman, Lst(PrintAll(r.chairman)));
      PutSingle(options, ss[1]);
      c1 := CheckAndSetAttr(MemoryOvercommit, OvercommitOr(r.memoryOvercommit, 1.0));
      PutThen(u, [ss[0]], [ss[1]]);
      PutSingle(options, ss[2]);
      c2 := CheckAndSetAttr(CpuOvercommit, OvercommitOr(r.cpuOvercommit, DEFAULT_CPU_OVERCOMMIT));
      PutThen(u, [ss[0]] + [ss[1]], [ss[2]]);
      assert [ss[0]] + [ss[1]] + [ss[2]] == ss;
    }

    method SetImages(r: Request) returns (changed: bool)
      modifies this`options
      ensures options == Put(old(options), Images(r)) && (changed <==> Changes(old(options), Images(r)))
    {
      var c0, c1 := false, false;
      ghost var u := options;
      ghost var a: seq<Setting>, b: seq<Setting> := [], [];
      if r.imageDatastores != [] {
        a := [Setting(ImageDatastores, ImageList(r.imageDatastores))];
        c0 := CheckAndSetAttr(ImageDatastores, ImageList(r.imageDatastores));
      }
      if r.managementOnly {
        b := [Setting(ManagementOnly, Num(1.0))];
        c1 := CheckAndSetAttr(ManagementOnly, Num(1.0));
      }
      PutThen(u, a, b);
      changed := c0 || c1;
    }

    method SetIdentity(r: Request) returns (changed: bool)
      modifies this`options
      ensures options == Put(old(options), Identity(r)) && (changed <==> Changes(old(options), Identity(r)))
    {
      ghost var u, ss := options, Identity(r);
      var c0 := CheckAndSetAttr(HostId, r.hostId);
      var c1 := CheckAndSetAttr(DeploymentId, r.deploymentId);
      PutThen(u, [ss[0]], [ss[1]]);
      assert [ss[0]] + [ss[1]] == ss;
      changed := c0 || c1;
    }

    /** The options that need a reboot and come before those that do not. */
    method SetBefore(r: Request) returns (changed: bool)
      modifies this`options
      ensures options == Put(old(options), Before(r)) && (changed <==> Changes(old(options), Before(r)))
    {
      ghost var u := options;
      var c0 := SetPlacement(r);
      var c1 := SetAddress(r);
      PutThen(u, Placement(r), Addressing(r));
      var c2 := SetStats(r);
      PutThen(u, Placement(r) + Addressing(r), Plugin(r));
      changed := c0 || c1 || c2;
    }

    /** Those that come after. */
    method SetBehind(r: Request) returns (changed: bool)
      modifies this`options
      ensures options == Put(old(options), Behind(r)) && (changed <==> Changes(old(options), Behind(r)))
    {
      ghost var u := options;
      var c0 := SetImages(r);
      var c1 := SetIdentity(r);
      PutThen(u, Images(r), Identity(r));
      changed := c0 || c1;
    }

    /**
     * `update_config`; `raised` is InvalidConfig, found before anything is changed, and the
     * other results say whose listeners are called.
     */
    method UpdateConfig(r: Request) returns (raised: bool, chairman: bool, memory: bool, cpu: bool)
      modifies this
      ensures raised <==>
                (r.memoryOvercommit.Some? && r.memoryOvercommit.value != 0.0 && r.memoryOvercommit.value < 1.0) ||
                (r.cpuOvercommit.Some? && r.cpuOvercommit.value != 0.0 && r.cpuOvercommit.value < 1.0)
      ensures raised ==> rebootRequired == old(rebootRequired) && !chairman && !memory && !cpu
      ensures forall o :: Agent(options, files) == Step(defaults, o, old(Agent(options, files)), Provision(r))
      ensures !raised ==>
                (rebootRequired <==>
                   old(rebootRequired) || exists k :: k in BEFORE + BEHIND && Get(options, k) != Get(old(options), k))
      ensures !raised ==> (chairman <==> Get(options, Chairman) != Get(old(options), Chairman))
      ensures !raised ==> (memory <==> Get(options, MemoryOvercommit) != Get(old(options), MemoryOvercommit))
      ensures !raised ==> (cpu <==> Get(options, CpuOvercommit) != Get(old(options), CpuOvercommit))
    {
      raised := Bad(r);
      chairman, memory, cpu := false, false, false;
      if raised {
        return;
      }
      ghost var u := options;
      var reboot := SetBefore(r);
      BeforeLeavesTold(u, r);
      chairman, memory, cpu := SetTold(r);
      var more := SetBehind(r);
      UpdateInThree(u, r);
      ChangeIsNoticed(u, r, Before(r), Told(r), Behind(r));
      ChangeIsSeen(u, r, Before(r), Told(r), Behind(r));
      ToldIsSeen(u, r);
      PersistConfig();
      if reboot || more {
        rebootRequired := true;
      }
    }
  }

  lemma BeforeLeavesTold(u: Options, r: Request)
    ensures forall k :: k in TOLD ==> Get(Put(u, Before(r)), k) == Get(u, k)
  {
    BeforeWithin(r);
    forall k | k in TOLD
      ensures Get(Put(u, Before(r)), k) == Get(u, k)
    {
      NotWithin(Before(r), BEFORE, u, k);
    }
  }

  /** The three stages of an update are the update. */
  lemma UpdateInThree(u: Options, r: Request)
    ensures Put(Put(Put(u, Before(r)), Told(r)), Behind(r)) == Updated(u, r)
  {
    PutThen(u, Before(r), Told(r));
    PutThen(u, Before(r) + Told(r), Behind(r));
  }

  /** They notice a change exactly where the request differs from what was before. */
  lemma ChangeIsNoticed(u: Options, r: Request, a: seq<Setting>, b: seq<Setting>, c: seq<Setting>)
    requires a == Before(r) && b == Told(r) && c == Behind(r)
    ensures Differs(u, a + c) <==> Changes(u, a) || Changes(Put(Put(u, a), b), c)
  {
    assert Within(a, BEFORE) && Within(b, TOLD) && Within(c, BEHIND) by {
      BeforeWithin(r);
      ToldWithin(r);
      BehindWithin(r);
    }
    NoticedAcross(u, a, BEFORE, b, TOLD, c, BEHIND);
  }

  /** The request differs among the rebooting options exactly where one of them comes out different. */
  lemma ChangeIsSeen(u: Options, r: Request, a: seq<Setting>, b: seq<Setting>, c: seq<Setting>)
    requires a == Before(r) && b == Told(r) && c == Behind(r)
    ensures Differs(u, a + c) <==> exists k :: k in BEFORE + BEHIND && Get(Updated(u, r), k) != Get(u, k)
  {
    assert Within(a, BEFORE) && Within(b, TOLD) && Within(c, BEHIND) by {
      BeforeWithin(r);
      ToldWithin(r);
      BehindWithin(r);
    }
    SeenAcross(u, Updated(u, r), a, BEFORE, b, TOLD, c, BEHIND);
  }

  lemma SeenAcross(u: Options, v: Options, a: seq<Setting>, ka: set<Key>, b: seq<Setting>, kb: set<Key>,
                   c: seq<Setting>, kc: set<Key>)
    requires Within(a, ka) && Within(b, kb) && Within(c, kc) && ka !! kb !! kc && v == Put(u, a + b + c)
    ensures Differs(u, a + c) <==> exists k :: k in ka + kc && Get(v, k) != Get(u, k)
  {
    var all := a + b + c;
    WithinBoth(a, ka, b, kb);
    WithinBoth(a + b, ka + kb, c, kc);
    if Differs(u, a + c) {
      var i :| 0 <= i < |a + c| && Get(u, (a + c)[i].key) != (a + c)[i].value;
      var x := (a + c)[i];
      var j := if i < |a| then i else i + |b|;
      assert all[j] == x;
      PutExactly(u, all, x.key);
      assert x.key in ka + kc && Get(v, x.key) == x.value;
    }
    if k :| k in ka + kc && Get(v, k) != Get(u, k) {
      PutExactly(u, all, k);
      var j :| 0 <= j < |all| && all[j].key == k;
      assert j < |a| || j >= |a| + |b|;
      var i := if j < |a| then j else j - |b|;
      assert (a + c)[i] == all[j];
    }
  }

  lemma ToldIsSeen(u: Options, r: Request)
    ensures var v := Updated(u, r);
            && Get(v, Chairman) == Told(r)[0].value && Get(v, MemoryOvercommit) == Told(r)[1].value
            && Get(v, CpuOvercommit) == Told(r)[2].value
  {
    var ss := Told(r);
    assert ss[0] in ss && ss[1] in ss && ss[2] in ss;
    SettingIsMade(u, r, ss[0]);
    SettingIsMade(u, r, ss[1]);
    SettingIsMade(u, r, ss[2]);
  }

  lemma NoticedAcross(u: Options, a: seq<Setting>, ka: set<Key>, b: seq<Setting>, kb: set<Key>,
                      c: seq<Setting>, kc: set<Key>)
    requires Within(a, ka) && Within(b, kb) && Within(c, kc) && ka !! kb !! kc
    ensures Differs(u, a + c) <==> Changes(u, a) || Changes(Put(Put(u, a), b), c)
  {
    var v := Put(Put(u, a), b);
    ChangesExactly(u, a);
    ChangesExactly(v, c);
    forall i | 0 <= i < |c|
      ensures Get(v, c[i].key) == Get(u, c[i].key)
    {
      NotWithin(a, ka, u, c[i].key);
      NotWithin(b, kb, Put(u, a), c[i].key);
    }
    DiffersBoth(u, a, c);
  }

  lemma DiffersBoth(u: Options, a: seq<Setting>, b: seq<Setting>)
    ensures Differs(u, a + b) <==> Differs(u, a) || Differs(u, b)
  {
    if Differs(u, a) {
      var i :| 0 <= i < |a| && Get(u, a[i].key) != a[i].value;
      assert (a + b)[i] == a[i];
    }
    if Differs(u, b) {
      var i :| 0 <= i < |b| && Get(u, b[i].key) != b[i].value;
      assert (a + b)[|a| + i] == b[i];
    }
  }
}
