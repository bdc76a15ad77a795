/** The host routes that keep the proxy's own traffic out of its tunnel: a table
    of addresses, and the router commands that install and remove them, each of
    which may fail without effect. */
module BypassRoutes {
  import opened Basics

  datatype Route = Route(ip: string, wan: string)

  datatype Command = Add(route: Route) | Remove(route: Route)

  datatype Attempt = Attempt(command: Command, ok: bool)

  // ---------------------------------------------------------------- what a history of commands leaves behind

  function Installed(log: seq<Attempt>): set<Route> {
    if log == [] then {}
    else
      var before, last := Installed(log[..|log| - 1]), log[|log| - 1];
      if !last.ok then before
      else if last.command.Add? then before + {last.command.route}
      else before - {last.command.route}
  }

  /** Since the last command on `r` that succeeded, a removal of `r` failed. */
  predicate RemovalFailed(log: seq<Attempt>, r: Route) {
    if log == [] then false
    else
      var rest, last := log[..|log| - 1], log[|log| - 1];
      if last.command.route != r then RemovalFailed(rest, r)
      else !last.ok && (last.command.Remove? || RemovalFailed(rest, r))
  }

  predicate NoFailures(log: seq<Attempt>, from: nat) {
    forall k :: from <= k < |log| ==> log[k].ok
  }

  /** After the first `from` commands, `c` was tried and came out as `ok`. */
  predicate Tried(log: seq<Attempt>, from: nat, c: Command, ok: bool) {
    exists k :: from <= k < |log| && log[k] == Attempt(c, ok)
  }

  lemma TriedLonger(log: seq<Attempt>, longer: seq<Attempt>, from: nat, c: Command, ok: bool)
    requires log <= longer
    ensures Tried(log, from, c, ok) ==> Tried(longer, from, c, ok)
  {
    if Tried(log, from, c, ok) {
      var k :| from <= k < |log| && log[k] == Attempt(c, ok);
      assert longer[k] == Attempt(c, ok);
    }
  }

  /** Each of these routes is in the table, or adding it was tried in vain. */
  predicate EachAddTried(log: seq<Attempt>, from: nat, ips: set<string>, routes: set<string>, wan: string) {
    forall ip :: ip in ips ==> ip in routes || Tried(log, from, Add(Route(ip, wan)), false)
  }

  /** Removing each of these routes was tried, with or without success. */
  predicate EachRemoveTried(log: seq<Attempt>, from: nat, ips: set<string>, wan: string) {
    forall ip :: ip in ips ==>
      Tried(log, from, Remove(Route(ip, wan)), true) || Tried(log, from, Remove(Route(ip, wan)), false)
  }

  lemma AddsStayTried(log: seq<Attempt>, longer: seq<Attempt>, from: nat, ips: set<string>, routes: set<string>,
                      wan: string)
    requires log <= longer && EachAddTried(log, from, ips, routes, wan)
    ensures EachAddTried(longer, from, ips, routes, wan)
  {
    forall ip | ip in ips ensures ip in routes || Tried(longer, from, Add(Route(ip, wan)), false) {
      TriedLonger(log, longer, from, Add(Route(ip, wan)), false);
    }
  }

  lemma RemovesStayTried(log: seq<Attempt>, longer: seq<Attempt>, from: nat, ips: set<string>, wan: string)
    requires log <= longer && EachRemoveTried(log, from, ips, wan)
    ensures EachRemoveTried(longer, from, ips, wan)
  {
    forall ip | ip in ips
      ensures Tried(longer, from, Remove(Route(ip, wan)), true) || Tried(longer, from, Remove(Route(ip, wan)), false)
    {
      TriedLonger(log, longer, from, Remove(Route(ip, wan)), true);
      TriedLonger(log, longer, from, Remove(Route(ip, wan)), false);
    }
  }

  function Via(ips: set<string>, wan: string): set<Route> {
    set ip | ip in ips :: Route(ip, wan)
  }

  /** Every route in `current` is installed, and the only others installed are
      those whose removal failed. */
  ghost predicate Accounted(log: seq<Attempt>, current: set<Route>) {
    && current <= Installed(log)
    && (forall r :: RemovalFailed(log, r) <==> r in Installed(log) - current)
  }

  lemma AddIsAccounted(log: seq<Attempt>, current: set<Route>, r: Route, ok: bool)
    requires Accounted(log, current)
    requires r !in current
    ensures Accounted(log + [Attempt(Add(r), ok)], if ok then current + {r} else current)
  {
    var next := log + [Attempt(Add(r), ok)];
    assert next[..|next| - 1] == log;
    var now := if ok then current + {r} else current;
    forall x ensures RemovalFailed(next, x) <==> x in Installed(next) - now {
      assert RemovalFailed(log, x) <==> x in Installed(log) - current;
    }
  }

  lemma RemoveIsAccounted(log: seq<Attempt>, current: set<Route>, r: Route, ok: bool)
    requires Accounted(log, current)
    requires r in current
    ensures Accounted(log + [Attempt(Remove(r), ok)], current - {r})
  {
    var next := log + [Attempt(Remove(r), ok)];
    assert next[..|next| - 1] == log;
  }

  /** A history without a failure leaves exactly the current routes. */
  lemma {:induction false} NothingStuck(log: seq<Attempt>, current: set<Route>)
    requires Accounted(log, current)
    requires NoFailures(log, 0)
    ensures Installed(log) == current
  {
    forall r | r in Installed(log) ensures r in current {
      NoneFailed(log, r);
      assert RemovalFailed(log, r) <==> r in Installed(log) - current;
    }
  }

  lemma {:induction false} NoneFailed(log: seq<Attempt>, r: Route)
    requires NoFailures(log, 0)
    ensures !RemovalFailed(log, r)
  {
    if log == [] {
    } else {
      NoneFailed(log[..|log| - 1], r);
    }
  }

  // ---------------------------------------------------------------- the router and the manager

  /** The router's command interface. `installed` are the routes that the
      commands sent through it have in place. */
  class RCI {
    var installed: set<Route>
    ghost var log: seq<Attempt>

    ghost predicate Valid()
      reads this
    {
      installed == Installed(log)
    }

    constructor ()
      ensures Valid() && log == []
    {
      installed, log := {}, [];
    }

    /** Runs one command; the router decides whether it succeeds. */
    method Parse(command: Command) returns (ok: bool)
      requires Valid()
      modifies this
      ensures Valid() && log == old(log) + [Attempt(command, ok)]
    {
      ok := *;
      if ok {
        match command {
          case Add(r) => installed := installed + {r};
          case Remove(r) => installed := installed - {r};
        }
      }
      log := log + [Attempt(command, ok)];
      assert log[..|log| - 1] == old(log);
    }
  }

  class RouteManager {
    const rci: RCI
    /** Whether a text parses as an address with an IPv4 form. */
    const isIPv4: string -> bool
    var wanID: string
    var routes: set<string>

    ghost function Current(): set<Route>
      reads this
    {
      Via(routes, wanID)
    }

    ghost predicate Valid()
      reads this, rci
    {
      rci.Valid() && Accounted(rci.log, Current())
    }

    constructor (rci: RCI, wanID: string, isIPv4: string -> bool)
      requires rci.Valid() && rci.log == []
      ensures Valid() && this.rci == rci && this.wanID == wanID && routes == {}
    {
      this.rci, this.wanID, this.isIPv4, routes := rci, wanID, isIPv4, {};
    }

    function Accepted(ips: seq<string>): set<string> {
      set ip | ip in ips && isIPv4(ip)
    }

    method AddBypassRoutes(ips: seq<string>)
      requires Valid()
      modifies this`routes, rci
      ensures Valid()
      ensures old(routes) <= routes <= old(routes) + Accepted(ips)
      ensures old(rci.log) <= rci.log && rci.installed >= old(rci.installed)
      ensures NoFailures(rci.log, |old(rci.log)|) ==> routes == old(routes) + Accepted(ips)
      ensures EachAddTried(rci.log, |old(rci.log)|, Accepted(ips), routes, wanID)
    {
      var i := 0;
      while i < |ips|
        invariant 0 <= i <= |ips|
        invariant Valid()
        invariant old(routes) <= routes <= old(routes) + Accepted(ips[..i])
        invariant old(rci.log) <= rci.log && rci.installed >= old(rci.installed)
        invariant NoFailures(rci.log, |old(rci.log)|) ==> routes == old(routes) + Accepted(ips[..i])
        invariant EachAddTried(rci.log, |old(rci.log)|, Accepted(ips[..i]), routes, wanID)
      {
        var ipStr := ips[i];
        assert ips[..i + 1] == ips[..i] + [ipStr];
        i := i + 1;
        if !isIPv4(ipStr) || ipStr in routes {
          continue;
        }
        ghost var log, before := rci.log, Current();
        var ok := rci.Parse(Add(Route(ipStr, wanID)));
        AddIsAccounted(log, before, Route(ipStr, wanID), ok);
        assert rci.log[..|log|] == log && rci.log[|log|] == Attempt(Add(Route(ipStr, wanID)), ok);
        AddsStayTried(log, rci.log, |old(rci.log)|, Accepted(ips[..i - 1]), routes, wanID);
        if !ok {
          continue;
        }
        routes := routes + {ipStr};
        assert Current() == before + {Route(ipStr, wanID)};
      }
      assert ips[..i] == ips;
    }

    method RemoveAllLocked()
      requires Valid()
      modifies this`routes, rci
      ensures Valid() && routes == {}
      ensures old(rci.log) <= rci.log
      ensures old(rci.installed) - old(Current()) <= rci.installed <= old(rci.installed)
      ensures NoFailures(rci.log, |old(rci.log)|) ==> rci.installed == old(rci.installed) - old(Current())
      ensures EachRemoveTried(rci.log, |old(rci.log)|, old(routes), wanID)
    {
      while routes != {}
        invariant Valid()
        invariant routes <= old(routes)
        invariant old(rci.log) <= rci.log
        invariant old(rci.installed) - old(Current()) <= rci.installed <= old(rci.installed)
        invariant NoFailures(rci.log, |old(rci.log)|) ==>
          rci.installed == old(rci.installed) - (old(Current()) - Current())
        invariant EachRemoveTried(rci.log, |old(rci.log)|, old(routes) - routes, wanID)
        decreases routes
      {
        var ipStr :| ipStr in routes;
        ghost var log, before := rci.log, Current();
        var ok := rci.Parse(Remove(Route(ipStr, wanID)));
        RemoveIsAccounted(log, before, Route(ipStr, wanID), ok);
        assert rci.log[..|log|] == log && rci.log[|log|] == Attempt(Remove(Route(ipStr, wanID)), ok);
        RemovesStayTried(log, rci.log, |old(rci.log)|, old(routes) - routes, wanID);
        routes := routes - {ipStr};
        assert Current() == before - {Route(ipStr, wanID)};
      }
    }

    method Cleanup()
      requires Valid()
      modifies this`routes, rci
      ensures Valid() && routes == {}
      ensures NoFailures(rci.log, 0) ==> rci.installed == {}
      ensures old(rci.log) <= rci.log
      ensures NoFailures(rci.log, |old(rci.log)|) ==> rci.installed == old(rci.installed) - old(Current())
      ensures EachRemoveTried(rci.log, |old(rci.log)|, old(routes), wanID)
    {
      RemoveAllLocked();
      AfterNoFailures();
    }

    /** If no command ever failed, exactly the table's routes are installed. */
    lemma AfterNoFailures()
      requires Valid()
      ensures NoFailures(rci.log, 0) ==> rci.installed == Via(routes, wanID)
    {
      if NoFailures(rci.log, 0) {
        NothingStuck(rci.log, Current());
      }
    }

    /** `wan` is the interface just looked up, or none if the lookup failed. */
    method RefreshWAN(wan: Option<string>) returns (changed: bool)
      requires Valid()
      modifies this, rci
      ensures Valid()
      ensures changed <==> wan.Some? && wan.value != old(wanID)
      ensures !changed ==> unchanged(this) && unchanged(rci)
      ensures changed ==> wanID == wan.value && routes <= old(routes) && old(rci.log) <= rci.log
      ensures changed ==> EachRemoveTried(rci.log, |old(rci.log)|, old(routes), old(wanID))
      ensures changed ==> EachAddTried(rci.log, |old(rci.log)|, old(routes), routes, wanID)
      ensures changed && NoFailures(rci.log, |old(rci.log)|) ==>
                && routes == old(routes)
                && rci.installed == old(rci.installed) - Via(old(routes), old(wanID)) + Via(routes, wanID)
      ensures NoFailures(rci.log, 0) ==> rci.installed == Via(routes, wanID)
    {
      if wan == None || wan.value == wanID {
        AfterNoFailures();
        return false;
      }
      var prev := routes;
      RemoveAllLocked();
      wanID := wan.value;
      assert Current() == {};
      ghost var log, installed := rci.log, rci.installed;
      var pending := prev;
      while pending != {}
        invariant Valid() && wanID == wan.value
        invariant pending <= prev && routes <= prev - pending
        invariant log <= rci.log
        invariant EachAddTried(rci.log, |old(rci.log)|, prev - pending, routes, wanID)
        invariant NoFailures(rci.log, |log|) ==> routes == prev - pending && rci.installed == installed + Current()
        decreases pending
      {
        var ipStr :| ipStr in pending;
        pending := pending - {ipStr};
        ghost var sofar, before := rci.log, Current();
        var ok := rci.Parse(Add(Route(ipStr, wanID)));
        AddIsAccounted(sofar, before, Route(ipStr, wanID), ok);
        assert rci.log[..|sofar|] == sofar && rci.log[|sofar|] == Attempt(Add(Route(ipStr, wanID)), ok);
        AddsStayTried(sofar, rci.log, |old(rci.log)|, prev - pending - {ipStr}, routes, wanID);
        if !ok {
          continue;
        }
        routes := routes + {ipStr};
        assert Current() == before + {Route(ipStr, wanID)};
      }
      RemovesStayTried(log, rci.log, |old(rci.log)|, prev, old(wanID));
      AfterNoFailures();
      return true;
    }
  }
}
