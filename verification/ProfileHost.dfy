/** The lazy runtime host of internal/gateway/profilehost.go: cold-start
    coalescing over a per-build channel, Invalidate, Close, and the ownership of
    every spawned backend's Cleanup.

    The functions are the four critical sections of h.mu. Module ProfileRuns
    interleaves them, the spawns and the cleanups of any number of concurrent
    calls. */
module ProfileHost {
  import opened Common

  type Backend = nat
  type Pid = int

  datatype Runtime = Runtime(builder: nat, cleanups: seq<Backend>)

  /** The fields h.mu guards. `runtimes` is None while the Go map is nil. */
  datatype Shared = Shared(closed: bool, runtimes: Option<map<Pid, Runtime>>, building: map<Pid, nat>)

  function Runtimes(h: Shared): map<Pid, Runtime> {
    if h.runtimes.Some? then h.runtimes.value else map[]
  }

  // ----- the critical sections -----

  datatype Entry = HostClosed | Warm(rt: Runtime) | Wait(ch: nat) | Claim

  /** One pass of the loop in getOrCreate up to its unlock. */
  function Enter(h: Shared, p: Pid, ch: nat): (Shared, Entry) {
    if h.closed then (h, HostClosed)
    else
      var g := h.(runtimes := Some(Runtimes(h)));
      if p in Runtimes(h) then (g, Warm(Runtimes(h)[p]))
      else if p in h.building then (g, Wait(h.building[p]))
      else (g.(building := h.building[p := ch]), Claim)
  }

  datatype Built = BuildFailed | BuildOk(rt: Runtime)

  datatype Committed = Kept(rt: Runtime) | Errored | Abandoned(rt: Runtime)

  /** The section a builder runs when spawnProfile has returned. */
  function Commit(h: Shared, p: Pid, b: Built): (Shared, Committed) {
    var g := h.(building := h.building - {p});
    match b
    case BuildFailed => (g, Errored)
    case BuildOk(rt) =>
      if h.runtimes.None? then (g, Abandoned(rt))
      else (g.(runtimes := Some(h.runtimes.value[p := rt])), Kept(rt))
  }

  function Remove(h: Shared, p: Pid): (Shared, Option<Runtime>) {
    if p in Runtimes(h) then (h.(runtimes := Some(Runtimes(h) - {p})), Some(Runtimes(h)[p])) else (h, None)
  }

  function Shut(h: Shared): Shared { h.(closed := true, runtimes := None) }

  /** The object itself: each method is one locked section, proved against the
      function of the same section. */
  class Host {
    var closed: bool
    var runtimes: Option<map<Pid, Runtime>>
    var building: map<Pid, nat>

    ghost function View(): Shared
      reads this
    {
      Shared(closed, runtimes, building)
    }

    constructor ()
      ensures View() == Shared(false, None, map[])
    {
      closed := false;
      runtimes := None;
      building := map[];
    }

    method EnterSection(p: Pid, ch: nat) returns (r: Entry)
      modifies this
      ensures (View(), r) == Enter(old(View()), p, ch)
    {
      if closed {
        return HostClosed;
      }
      if runtimes.None? {
        runtimes := Some(map[]);
      }
      if p in runtimes.value {
        return Warm(runtimes.value[p]);
      }
      if p in building {
        return Wait(building[p]);
      }
      building := building[p := ch];
      return Claim;
    }

    method CommitSection(p: Pid, b: Built) returns (r: Committed)
      modifies this
      ensures (View(), r) == Commit(old(View()), p, b)
    {
      building := building - {p};
      if b.BuildFailed? {
        return Errored;
      }
      if runtimes.None? {
        return Abandoned(b.rt);
      }
      runtimes := Some(runtimes.value[p := b.rt]);
      return Kept(b.rt);
    }

    method InvalidateSection(p: Pid) returns (r: Option<Runtime>)
      modifies this
      ensures (View(), r) == Remove(old(View()), p)
    {
      r := None;
      if runtimes.Some? && p in runtimes.value {
        r := Some(runtimes.value[p]);
        runtimes := Some(runtimes.value - {p});
      }
    }

    method CloseSection() returns (rts: map<Pid, Runtime>)
      modifies this
      ensures View() == Shut(old(View())) && rts == Runtimes(old(View()))
    {
      rts := if runtimes.Some? then runtimes.value else map[];
      runtimes := None;
      closed := true;
    }
  }
}
