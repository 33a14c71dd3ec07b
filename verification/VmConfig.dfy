/** Free bus numbers and device keys in virtual machine specs (python/src/pysdk/pysdk/vmconfig.py). */
module VmConfig {
  import opened Wrappers

  /** A device, with the names of the classes it is an instance of. */
  datatype Device = Device(key: int, classes: set<string>, busNumber: int, controllerKey: Option<int>)

  datatype Operation = Add | Edit | Remove

  datatype Change = Change(operation: Option<Operation>, device: Device)

  /** The device list of a spec may be missing. */
  type Changes = Option<seq<Change>>

  // ----- controllers and bus numbers ---------------------------------------------------------

  function InstancesOf(ds: seq<Device>, cls: string): seq<Device> {
    if ds == [] then []
    else InstancesOf(ds[..|ds| - 1], cls) + if cls in ds[|ds| - 1].classes then [ds[|ds| - 1]] else []
  }

  /** The devices of a spec that it does not remove. */
  function Kept(cs: seq<Change>): seq<Device> {
    if cs == [] then []
    else Kept(cs[..|cs| - 1]) + if cs[|cs| - 1].operation == Some(Remove) then [] else [cs[|cs| - 1].device]
  }

  /** Both lists keep the order. */
  lemma {:induction false} InstancesInOrder(a: seq<Device>, b: seq<Device>, cls: string, d: Device)
    ensures InstancesOf(a + b, cls) == InstancesOf(a, cls) + InstancesOf(b, cls)
    ensures InstancesOf([d], cls) == if cls in d.classes then [d] else []
    decreases |b|
  {
    assert [d][..0] == [] && InstancesOf([], cls) == [];
    if b == [] {
      assert a + b == a;
    } else {
      assert (a + b)[..|a + b| - 1] == a + b[..|b| - 1];
      InstancesInOrder(a, b[..|b| - 1], cls, d);
    }
  }

  lemma {:induction false} KeptInOrder(a: seq<Change>, b: seq<Change>, c: Change)
    ensures Kept(a + b) == Kept(a) + Kept(b)
    ensures Kept([c]) == if c.operation == Some(Remove) then [] else [c.device]
    decreases |b|
  {
    assert [c][..0] == [] && Kept([]) == [];
    if b == [] {
      assert a + b == a;
    } else {
      assert (a + b)[..|a + b| - 1] == a + b[..|b| - 1];
      KeptInOrder(a, b[..|b| - 1], c);
    }
  }

  /** The matching devices: those there by default first, then the configured, then those of the spec. */
  function Controllers(defaults: seq<Device>, cls: string, config: Option<seq<Device>>, spec: Option<Changes>): seq<Device> {
    InstancesOf(defaults, cls) + (if config.Some? then InstancesOf(config.value, cls) else []) +
    (if spec.Some? && spec.value.Some? then InstancesOf(Kept(spec.value.value), cls) else [])
  }

  /** The first controller: a default one if there is any, else a configured one, else one of the spec. */
  lemma FirstController(defaults: seq<Device>, cls: string, config: Option<seq<Device>>, spec: Option<Changes>)
    requires Controllers(defaults, cls, config, spec) != []
    ensures var d := Controllers(defaults, cls, config, spec)[0];
            && cls in d.classes
            && ((exists x :: x in defaults && cls in x.classes) ==> d in defaults)
            && (config.Some? && (forall x :: x in defaults ==> cls !in x.classes) ==>
                  (exists x :: x in config.value && cls in x.classes) ==> d in config.value)
  {
    var d := Controllers(defaults, cls, config, spec)[0];
    forall x
      ensures x in InstancesOf(defaults, cls) <==> x in defaults && cls in x.classes
      ensures config.Some? ==> (x in InstancesOf(config.value, cls) <==> x in config.value && cls in x.classes)
      ensures spec.Some? && spec.value.Some? ==>
                (x in InstancesOf(Kept(spec.value.value), cls) ==> cls in x.classes)
    {
      InstanceExactly(defaults, cls, x);
      if config.Some? {
        InstanceExactly(config.value, cls, x);
      }
      if spec.Some? && spec.value.Some? {
        InstanceExactly(Kept(spec.value.value), cls, x);
      }
    }
    assert d in Controllers(defaults, cls, config, spec);
    if InstancesOf(defaults, cls) != [] {
      assert d == InstancesOf(defaults, cls)[0];
    } else if config.Some? && InstancesOf(config.value, cls) != [] {
      assert d == InstancesOf(config.value, cls)[0];
    }
  }

  method SelectInstances(ds: seq<Device>, cls: string) returns (r: seq<Device>)
    ensures r == InstancesOf(ds, cls)
  {
    r := [];
    for i := 0 to |ds|
      invariant r == InstancesOf(ds[..i], cls)
    {
      assert ds[..i + 1][..i] == ds[..i];
      if cls in ds[i].classes {
        r := r + [ds[i]];
      }
    }
    assert ds[..|ds|] == ds;
  }

  method GetDeviceListFromSpec(changes: Changes) returns (r: seq<Device>)
    ensures r == if changes.None? then [] else Kept(changes.value)
  {
    r := [];
    if changes.None? {
      return;
    }
    var cs := changes.value;
    for i := 0 to |cs|
      invariant r == Kept(cs[..i])
    {
      assert cs[..i + 1][..i] == cs[..i];
      if cs[i].operation != Some(Remove) {
        r := r + [cs[i].device];
      }
    }
    assert cs[..|cs|] == cs;
  }

  lemma {:induction false} InstanceExactly(ds: seq<Device>, cls: string, d: Device)
    ensures d in InstancesOf(ds, cls) <==> d in ds && cls in d.classes
  {
    if ds != [] {
      InstanceExactly(ds[..|ds| - 1], cls, d);
      assert ds == ds[..|ds| - 1] + [ds[|ds| - 1]];
    }
  }

  lemma {:induction false} KeptExactly(cs: seq<Change>, d: Device)
    ensures d in Kept(cs) <==> exists c :: c in cs && c.device == d && c.operation != Some(Remove)
  {
    if cs != [] {
      KeptExactly(cs[..|cs| - 1], d);
      assert cs == cs[..|cs| - 1] + [cs[|cs| - 1]];
    }
  }

  /** A controller of the class that is present: by default, as configured, or by the spec. */
  ghost predicate Present(d: Device, defaults: seq<Device>, config: Option<seq<Device>>, spec: Option<Changes>, cls: string) {
    cls in d.classes &&
    (d in defaults || (config.Some? && d in config.value) ||
     (spec.Some? && spec.value.Some? &&
      exists c :: c in spec.value.value && c.device == d && c.operation != Some(Remove)))
  }

  ghost predicate BusInUse(
    m: int, defaults: seq<Device>, config: Option<seq<Device>>, spec: Option<Changes>, cls: string)
  {
    exists d :: Present(d, defaults, config, spec, cls) && d.busNumber == m
  }

  method GetControllers(defaults: seq<Device>, cls: string, config: Option<seq<Device>>, spec: Option<Changes>)
    returns (r: seq<Device>)
    ensures r == Controllers(defaults, cls, config, spec)
    ensures forall d :: d in r <==> Present(d, defaults, config, spec, cls)
  {
    r := SelectInstances(defaults, cls);
    forall d
      ensures d in r <==> d in defaults && cls in d.classes
    {
      InstanceExactly(defaults, cls, d);
    }
    if config.Some? {
      var more := SelectInstances(config.value, cls);
      forall d
        ensures d in more <==> d in config.value && cls in d.classes
      {
        InstanceExactly(config.value, cls, d);
      }
      r := r + more;
    }
    if spec.Some? {
      var devices := GetDeviceListFromSpec(spec.value);
      var more := SelectInstances(devices, cls);
      forall d
        ensures d in more <==> d in devices && cls in d.classes
      {
        InstanceExactly(devices, cls, d);
        if spec.value.Some? {
          KeptExactly(spec.value.value, d);
        }
      }
      forall d
        ensures d in devices <==>
                  spec.value.Some? && exists c :: c in spec.value.value && c.device == d && c.operation != Some(Remove)
      {
        if spec.value.Some? {
          KeptExactly(spec.value.value, d);
        }
      }
      r := r + more;
    }
  }

  predicate Ascending(s: seq<int>) {
    forall i, j :: 0 <= i < j < |s| ==> s[i] <= s[j]
  }

  function InsertInto(x: int, s: seq<int>): seq<int> {
    if s == [] || x <= s[0] then [x] + s else [s[0]] + InsertInto(x, s[1..])
  }

  lemma {:induction false} InsertKeeps(x: int, s: seq<int>)
    requires Ascending(s)
    ensures Ascending(InsertInto(x, s))
    ensures forall y :: y in InsertInto(x, s) <==> y == x || y in s
  {
    if s != [] && s[0] < x {
      InsertKeeps(x, s[1..]);
      assert s == [s[0]] + s[1..];
      var t := InsertInto(x, s[1..]);
      assert forall i :: 0 <= i < |t| ==> s[0] <= t[i] by {
        forall i | 0 <= i < |t|
          ensures s[0] <= t[i]
        {
          assert t[i] in t;
        }
      }
    }
  }

  /** `sorted`. */
  function Sorted(s: seq<int>): seq<int> {
    if s == [] then [] else InsertInto(s[0], Sorted(s[1..]))
  }

  lemma {:induction false} SortedSorts(s: seq<int>)
    ensures Ascending(Sorted(s)) && forall y :: y in Sorted(s) <==> y in s
  {
    if s != [] {
      SortedSorts(s[1..]);
      InsertKeeps(s[0], Sorted(s[1..]));
      assert s == [s[0]] + s[1..];
    }
  }

  /** The scan over the sorted numbers finds the least natural number that is not among them. */
  method FirstGap(used: seq<int>) returns (slot: nat)
    ensures slot !in used && forall m :: 0 <= m < slot ==> m in used
  {
    var s := Sorted(used);
    SortedSorts(used);
    slot := 0;
    var i := 0;
    while i < |s|
      invariant 0 <= i <= |s|
      invariant forall m :: 0 <= m < slot ==> m in used
      invariant forall j :: 0 <= j < i ==> s[j] < slot
    {
      if slot < s[i] {
        break;
      } else if slot == s[i] {
        assert s[i] in s;
        slot := slot + 1;
      }
      i := i + 1;
    }
    assert forall j :: 0 <= j < |s| ==> s[j] != slot;
    assert slot !in s;
  }

  /** The least bus number that no matching controller uses. */
  method GetFreeBusNumber(defaults: seq<Device>, cls: string, config: Option<seq<Device>>, spec: Option<Changes>)
    returns (slot: nat)
    ensures !BusInUse(slot, defaults, config, spec, cls)
    ensures forall m :: 0 <= m < slot ==> BusInUse(m, defaults, config, spec, cls)
  {
    var controllers := GetControllers(defaults, cls, config, spec);
    var used := [];
    for i := 0 to |controllers|
      invariant |used| == i && forall j :: 0 <= j < i ==> used[j] == controllers[j].busNumber
    {
      used := used + [controllers[i].busNumber];
    }
    slot := FirstGap(used);
    forall m: int
      ensures m in used <==> BusInUse(m, defaults, config, spec, cls)
    {
      if m in used {
        var j :| 0 <= j < |used| && used[j] == m;
        assert controllers[j] in controllers;
      }
      if BusInUse(m, defaults, config, spec, cls) {
        var d :| Present(d, defaults, config, spec, cls) && d.busNumber == m;
        var j :| 0 <= j < |controllers| && controllers[j] == d;
        assert used[j] == m;
      }
    }
  }

  // ----- device keys --------------------------------------------------------------------------

  /** A key for a new device: the greatest negative number below all keys in the spec. */
  function FreeKey(cs: seq<Change>): (k: int)
    ensures k < 0 && forall i :: 0 <= i < |cs| ==> k < cs[i].device.key
    ensures k == -1 || exists i :: 0 <= i < |cs| && cs[i].device.key == k + 1
  {
    if cs == [] then -1
    else
      var k := FreeKey(cs[..|cs| - 1]);
      var last := cs[|cs| - 1].device.key;
      assert forall i :: 0 <= i < |cs| - 1 ==> cs[i] == cs[..|cs| - 1][i];
      if k >= last then last - 1 else k
  }

  /**
   * An attempt to add a nic or cd-rom, which goes to the first controller of a class, or a serial
   * port, which has none (`cls` is `None`).
   */
  datatype Attempt = Attempt(device: Device, cls: Option<string>, defaults: seq<Device>, config: Option<seq<Device>>)

  function ControllersFor(spec: Changes, a: Attempt): seq<Device>
    requires a.cls.Some?
  {
    Controllers(a.defaults, a.cls.value, a.config, Some(spec))
  }

  predicate Succeeds(spec: Changes, a: Attempt) {
    a.cls.Some? ==> ControllersFor(spec, a) != []
  }

  function ListOf(spec: Changes): seq<Change> {
    if spec.Some? then spec.value else []
  }

  /** The spec after the attempt; a missing controller raises before anything is changed. */
  function AddDevice(spec: Changes, a: Attempt): Changes {
    if !Succeeds(spec, a) then spec
    else
      var d := a.device.(key := FreeKey(ListOf(spec)));
      Some(ListOf(spec) +
           [Change(Some(Add), if a.cls.Some? then d.(controllerKey := Some(ControllersFor(spec, a)[0].key)) else d)])
  }

  function AddAll(attempts: seq<Attempt>): Changes {
    if attempts == [] then None else AddDevice(AddAll(attempts[..|attempts| - 1]), attempts[|attempts| - 1])
  }

  /** In a spec built from nothing by such additions, the n-th is an addition and its device has key -n. */
  lemma {:induction false} KeysCountDown(attempts: seq<Attempt>, i: nat)
    requires i < |ListOf(AddAll(attempts))|
    ensures var c := ListOf(AddAll(attempts))[i]; c.operation == Some(Add) && c.device.key == -(i + 1)
    decreases |attempts|, i
  {
    var before := ListOf(AddAll(attempts[..|attempts| - 1]));
    if i < |before| {
      KeysCountDown(attempts[..|attempts| - 1], i);
    } else {
      forall j | 0 <= j < |before|
        ensures before[j].device.key == -(j + 1)
      {
        KeysCountDown(attempts[..|attempts| - 1], j);
      }
      assert |before| > 0 ==> before[|before| - 1].device.key == -|before|;
    }
  }

  class ConfigSpec {
    var deviceChange: Changes

    constructor ()
      ensures deviceChange == None
    {
      deviceChange := None;
    }

    method GetFreeKey() returns (k: int)
      ensures k == FreeKey(ListOf(deviceChange))
    {
      k := -1;
      if deviceChange.None? {
        return;
      }
      var cs := deviceChange.value;
      for i := 0 to |cs|
        invariant k == FreeKey(cs[..i])
      {
        assert cs[..i + 1][..i] == cs[..i];
        if k >= cs[i].device.key {
          k := cs[i].device.key - 1;
        }
      }
      assert cs[..|cs|] == cs;
    }

    /** The adders; `raised` is the missing controller, found before the spec is changed. */
    method AddToSpec(a: Attempt) returns (raised: bool)
      modifies this
      ensures deviceChange == AddDevice(old(deviceChange), a) && (raised <==> !Succeeds(old(deviceChange), a))
      ensures raised ==> forall d :: !Present(d, a.defaults, a.config, Some(old(deviceChange)), a.cls.value)
      ensures !raised ==>
                var c := ListOf(deviceChange)[|ListOf(old(deviceChange))|];
                && ListOf(deviceChange) == ListOf(old(deviceChange)) + [c]
                && c.operation == Some(Add) && c.device.key == FreeKey(ListOf(old(deviceChange)))
                && c.device.classes == a.device.classes && c.device.busNumber == a.device.busNumber
                && c.device.controllerKey ==
                     if a.cls.None? then a.device.controllerKey
                     else Some(Controllers(a.defaults, a.cls.value, a.config, Some(old(deviceChange)))[0].key)
    {
      var device := a.device.(key := -1);
      var key := GetFreeKey();
      device := device.(key := key);
      raised := false;
      if a.cls.Some? {
        var controllers := GetControllers(a.defaults, a.cls.value, a.config, Some(deviceChange));
        if controllers == [] {
          return true;
        }
        assert controllers[0] in controllers;
        device := device.(controllerKey := Some(controllers[0].key));
      }
      if deviceChange.None? {
        deviceChange := Some([]);
      }
      deviceChange := Some(deviceChange.value + [Change(Some(Add), device)]);
    }
  }
}
