/** The gate in front of new TURN work: its critical sections as functions of the
    shared struct, and the struct itself with one method per critical section.

    Instants are nanoseconds; the zero `time.Time` is `None`. A channel is the
    number of channels made before it, so `channel` is the next fresh one. */
module NetworkGate {
  import opened Arithmetic
  import opened Basics

  const PROOF_TTL := 180 * SECOND
  const PROBE_INTERVAL := 60 * SECOND

  datatype Gate = Gate(
    validated: bool,
    provenUntil: Option<int>,
    generation: nat,
    nextProbe: Option<int>,
    busy: bool,
    probeId: nat,
    channel: nat,          // becameAvailable
    closed: set<nat>)      // every channel that has been closed

  datatype Permit = Permit(probe: bool, id: nat)

  /** Result of one pass through the critical section of waitForNetworkPermit. */
  datatype Entry = Granted(permit: Permit) | Park(channel: nat, timer: Option<int>)

  const InitialGate := Gate(true, None, 0, None, false, 0, 0, {})

  predicate Before(now: int, t: Option<int>) {
    t.Some? && now < t.value
  }

  predicate Available(g: Gate, now: int) {
    g.validated || Before(now, g.provenUntil)
  }

  function Signal(g: Gate): Gate {
    g.(closed := g.closed + {g.channel}, channel := g.channel + 1)
  }

  function SetAvailable(g: Gate, now: int, validated: bool): Gate {
    var h := g.(validated := validated);
    var k := if validated then h.(nextProbe := None, busy := false, probeId := g.probeId + 1) else h;
    if !Available(g, now) && Available(k, now) then Signal(k) else k
  }

  function MarkProven(g: Gate, now: int, generation: nat): Gate {
    if generation != g.generation then g
    else
      var h := g.(provenUntil := Some(now + PROOF_TTL), nextProbe := None, busy := false);
      if Available(g, now) then h else Signal(h)
  }

  function BeginGeneration(g: Gate): Gate {
    g.(generation := g.generation + 1, provenUntil := None, nextProbe := None, busy := false, probeId := g.probeId + 1)
  }

  predicate MayProbe(g: Gate, now: int) {
    !g.busy && (g.nextProbe.None? || g.nextProbe.value <= now)
  }

  function TryPermit(g: Gate, now: int, allowProbe: bool): (Gate, Entry) {
    if Available(g, now) then (g, Granted(Permit(false, 0)))
    else if allowProbe && MayProbe(g, now) then
      (g.(nextProbe := Some(now + PROBE_INTERVAL), busy := true, probeId := g.probeId + 1),
       Granted(Permit(true, g.probeId + 1)))
    else
      (g, Park(g.channel, if allowProbe && !g.busy then g.nextProbe else None))
  }

  function ReleasePermit(g: Gate, p: Permit): Gate {
    if !p.probe || !g.busy || p.id != g.probeId then g else Signal(g.(busy := false))
  }

  // ---------------------------------------------------------------- the struct

  class NetworkAvailability {
    var androidValidated: bool
    var transportProvenUntil: Option<int>
    var transportGeneration: nat
    var nextUnvalidatedProbe: Option<int>
    var unvalidatedProbeBusy: bool
    var unvalidatedProbeID: nat
    var becameAvailable: nat
    ghost var closed: set<nat>

    ghost function Now(): Gate
      reads this
    {
      Gate(androidValidated, transportProvenUntil, transportGeneration, nextUnvalidatedProbe,
           unvalidatedProbeBusy, unvalidatedProbeID, becameAvailable, closed)
    }

    /** No channel is closed that has not been replaced: `close` cannot panic. */
    ghost predicate Valid()
      reads this
    {
      forall c :: c in closed ==> c < becameAvailable
    }

    constructor ()
      ensures Valid() && Now() == InitialGate
    {
      androidValidated := true;
      transportProvenUntil, nextUnvalidatedProbe := None, None;
      transportGeneration, unvalidatedProbeID := 0, 0;
      unvalidatedProbeBusy := false;
      becameAvailable, closed := 0, {};
    }

    method NetworkAvailableLocked(now: int) returns (ok: bool)
      ensures ok == Available(Now(), now)
    {
      ok := androidValidated;
      if !ok && transportProvenUntil.Some? {
        ok := now < transportProvenUntil.value;
      }
    }

    method SignalNetworkWaitersLocked()
      requires Valid()
      modifies `becameAvailable, `closed
      ensures Valid() && Now() == Signal(old(Now()))
      ensures old(becameAvailable) !in old(closed) && old(becameAvailable) in closed
    {
      closed := closed + {becameAvailable};
      becameAvailable := becameAvailable + 1;
    }

    method SetNetworkAvailable(now: int, validated: bool)
      requires Valid()
      modifies this
      ensures Valid() && Now() == SetAvailable(old(Now()), now, validated)
    {
      var wasAvailable := NetworkAvailableLocked(now);
      androidValidated := validated;
      if validated {
        nextUnvalidatedProbe := None;
        unvalidatedProbeBusy := false;
        unvalidatedProbeID := unvalidatedProbeID + 1;
      }
      var isAvailable := NetworkAvailableLocked(now);
      if !wasAvailable && isAvailable {
        SignalNetworkWaitersLocked();
      }
    }

    method MarkNetworkPathProven(now: int, generation: nat)
      requires Valid()
      modifies this
      ensures Valid() && Now() == MarkProven(old(Now()), now, generation)
    {
      if generation != transportGeneration {
        return;
      }
      var wasAvailable := NetworkAvailableLocked(now);
      transportProvenUntil := Some(now + PROOF_TTL);
      nextUnvalidatedProbe := None;
      unvalidatedProbeBusy := false;
      if !wasAvailable {
        SignalNetworkWaitersLocked();
      }
    }

    method BeginNetworkPathGeneration() returns (generation: nat)
      requires Valid()
      modifies this
      ensures Valid() && Now() == BeginGeneration(old(Now())) && generation == Now().generation
    {
      transportGeneration := transportGeneration + 1;
      transportProvenUntil, nextUnvalidatedProbe := None, None;
      unvalidatedProbeBusy := false;
      unvalidatedProbeID := unvalidatedProbeID + 1;
      generation := transportGeneration;
    }

    /** One iteration of the loop of waitForNetworkPermit, up to where it returns a
        permit or blocks. */
    method EnterGate(now: int, allowUnvalidatedProbe: bool) returns (entry: Entry)
      requires Valid()
      modifies this
      ensures Valid() && (Now(), entry) == TryPermit(old(Now()), now, allowUnvalidatedProbe)
    {
      var available := NetworkAvailableLocked(now);
      if available {
        return Granted(Permit(false, 0));
      }
      var probeAt := None;
      if allowUnvalidatedProbe {
        if !unvalidatedProbeBusy {
          probeAt := nextUnvalidatedProbe;
        }
        if !unvalidatedProbeBusy && (probeAt.None? || probeAt.value <= now) {
          nextUnvalidatedProbe := Some(now + PROBE_INTERVAL);
          unvalidatedProbeBusy := true;
          unvalidatedProbeID := unvalidatedProbeID + 1;
          return Granted(Permit(true, unvalidatedProbeID));
        }
      }
      entry := Park(becameAvailable, probeAt);
    }

    method ReleaseNetworkPermit(permit: Permit)
      requires Valid()
      modifies this
      ensures Valid() && Now() == ReleasePermit(old(Now()), permit)
    {
      if !permit.probe {
        return;
      }
      if !unvalidatedProbeBusy || permit.id != unvalidatedProbeID {
        return;
      }
      unvalidatedProbeBusy := false;
      SignalNetworkWaitersLocked();
    }
  }
}
