/** The persisted host mode and its transition callbacks (python/src/common/common/mode.py). */
module HostMode {
  import opened Wrappers

  datatype Mode = Normal | EnteringMaintenance | Maintenance | Deprovisioned

  /** The number under which a mode is stored. */
  function Code(m: Mode): (n: int)
    ensures 1 <= n <= 4
  {
    match m
    case Normal => 1
    case EnteringMaintenance => 2
    case Maintenance => 3
    case Deprovisioned => 4
  }

  /**
   * `get_mode`: nothing stored, or zero, means `Normal`; a number that names no
   * mode raises (`None` here).
   */
  function Decode(stored: Option<int>): Option<Mode> {
    match stored
    case None => Some(Normal)
    case Some(0) => Some(Normal)
    case Some(1) => Some(Normal)
    case Some(2) => Some(EnteringMaintenance)
    case Some(3) => Some(Maintenance)
    case Some(4) => Some(Deprovisioned)
    case _ => None
  }

  /** A stored mode is read back; nothing stored is `Normal`; only the numbers of modes, and zero, can be read. */
  lemma DecodeExactly(m: Mode, n: int)
    ensures Decode(Some(Code(m))) == Some(m) && Decode(None) == Some(Normal)
    ensures Decode(Some(n)) == Some(m) <==> n == Code(m) || (n == 0 && m == Normal)
  {
  }

  datatype SetError = BadStoredMode | NotAllowed(from: Mode)

  /**
   * Whether `set_mode(m, allowed)` goes on to write. `Ok(false)` is the early return
   * when the mode is already `m`; an empty or missing list of origins allows all.
   */
  function Admits(stored: Option<int>, m: Mode, allowed: set<Mode>): (r: Result<bool, SetError>)
    ensures r.Ok? <==>
              Decode(stored).Some? &&
              var cur := Decode(stored).value; cur == m || allowed == {} || cur in allowed
    ensures r == Ok(true) ==> Decode(stored).value != m
    ensures r == Ok(false) ==> Decode(stored).value == m
    ensures r == Err(BadStoredMode) <==> Decode(stored).None?
    ensures r.Err? && r.error.NotAllowed? ==> Decode(stored) == Some(r.error.from)
  {
    match Decode(stored)
    case None => Err(BadStoredMode)
    case Some(cur) =>
      if cur == m then Ok(false)
      else if allowed != {} && cur !in allowed then Err(NotAllowed(cur))
      else Ok(true)
  }

  type Callback = nat

  /** The callbacks registered for mode `m`, in registration order. */
  function For(cs: seq<(Mode, Callback)>, m: Mode): seq<Callback> {
    if cs == [] then []
    else
      var last := cs[|cs| - 1];
      For(cs[..|cs| - 1], m) + if last.0 == m then [last.1] else []
  }

  /** Exactly the callbacks registered for the mode, in order. */
  lemma {:induction false} ForExactly(a: seq<(Mode, Callback)>, b: seq<(Mode, Callback)>, m: Mode, x: (Mode, Callback))
    ensures For(a + b, m) == For(a, m) + For(b, m)
    ensures For([x], m) == if x.0 == m then [x.1] else []
    decreases |b|
  {
    assert [x][..0] == [] && For([], m) == [];
    if b == [] {
      assert a + b == a;
    } else {
      assert (a + b)[..|a + b| - 1] == a + b[..|b| - 1];
      ForExactly(a, b[..|b| - 1], m, x);
    }
  }

  class HostModeStore {
    var stored: Option<int>
    var enter: seq<(Mode, Callback)>
    var exit: seq<(Mode, Callback)>
    var change: seq<Callback>

    constructor (stored: Option<int>)
      ensures this.stored == stored && enter == [] && exit == [] && change == []
    {
      this.stored, enter, exit, change := stored, [], [], [];
    }

    method OnChange(c: Callback)
      modifies this`change
      ensures change == old(change) + [c]
    {
      change := change + [c];
    }

    /** The list comprehension that selects the callbacks of one mode. */
    method Select(cs: seq<(Mode, Callback)>, m: Mode) returns (r: seq<Callback>)
      ensures r == For(cs, m)
    {
      r := [];
      for i := 0 to |cs|
        invariant r == For(cs[..i], m)
      {
        assert cs[..i + 1][..i] == cs[..i];
        if cs[i].0 == m {
          r := r + [cs[i].1];
        }
      }
      assert cs[..|cs|] == cs;
    }

    /**
     * `set_mode`. `persists` is whether the state file could be written; when it could
     * not, the new mode is nevertheless visible and no callback runs.
     */
    method SetMode(m: Mode, allowed: set<Mode>, persists: bool)
      returns (r: Result<bool, SetError>, ran: seq<Callback>)
      modifies this`stored
      ensures r == Admits(old(stored), m, allowed)
      ensures r != Ok(true) ==> stored == old(stored) && ran == []
      ensures r == Ok(true) ==> Decode(stored) == Some(m)
      ensures r == Ok(true) && !persists ==> ran == []
      ensures r == Ok(true) && persists ==>
                ran == For(exit, Decode(old(stored)).value) + For(enter, m) + change
    {
      r, ran := Admits(stored, m, allowed), [];
      if r != Ok(true) {
        return;
      }
      var was := Decode(stored).value;
      stored := Some(Code(m));
      if persists {
        var exits := Select(exit, was);
        var enters := Select(enter, m);
        ran := exits + enters + change;
      }
    }
  }
}
