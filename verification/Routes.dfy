/**
 The routing table that a node is believed to have: a list that stands for a map from prefixes to next hops.
 */
module Routes {
  import opened Address
  import opened Options

  /** di_route. */
  datatype Target = Target(length: nat, prefix: Ip, expiration: nat)

  datatype Route = Route(target: Target, via: Mac)

  /** Two targets stand for the same prefix: the same length and the same first bits. */
  ghost predicate SameTarget(t: Target, u: Target) {
    t.length == u.length && SamePrefix(t.prefix, u.prefix, t.length)
  }

  lemma {:induction false} SameTargetEquivalence(t: Target, u: Target, v: Target)
    ensures SameTarget(t, t)
    ensures SameTarget(t, u) ==> SameTarget(u, t)
    ensures SameTarget(t, u) && SameTarget(u, v) ==> SameTarget(t, v)
  {
    if SameTarget(t, u) {
      PrefixTransitive(t.prefix, u.prefix, u.prefix, t.length);
      if SameTarget(u, v) {
        PrefixTransitive(t.prefix, u.prefix, v.prefix, t.length);
      }
    }
  }

  ghost predicate RouteAt(s: seq<Route>, t: Target, i: nat) {
    i < |s| && SameTarget(s[i].target, t)
  }

  ghost predicate HasRoute(s: seq<Route>, t: Target) {
    exists i: nat {:trigger RouteAt(s, t, i)} :: RouteAt(s, t, i)
  }

  /** The place of the first entry for a target. */
  ghost function FirstRoute(s: seq<Route>, t: Target): (i: nat)
    requires HasRoute(s, t)
    ensures RouteAt(s, t, i) && forall j: nat {:trigger RouteAt(s, t, j)} :: j < i ==> !RouteAt(s, t, j)
  {
    var k: nat :| RouteAt(s, t, k);
    FirstRouteUpTo(s, t, k)
  }

  ghost function FirstRouteUpTo(s: seq<Route>, t: Target, k: nat): (i: nat)
    requires RouteAt(s, t, k)
    ensures RouteAt(s, t, i) && forall j: nat {:trigger RouteAt(s, t, j)} :: j < i ==> !RouteAt(s, t, j)
    decreases k
  {
    if j: nat :| j < k && RouteAt(s, t, j) then FirstRouteUpTo(s, t, j) else k
  }

  // ---- the operations

  /** route_add. */
  ghost function Added(s: seq<Route>, t: Target, via: Mac): seq<Route> {
    if HasRoute(s, t) then s[FirstRoute(s, t) := s[FirstRoute(s, t)].(via := via)] else [Route(t, via)] + s
  }

  /** What route_add reports: the very route was there before. */
  ghost predicate WasThere(s: seq<Route>, t: Target, via: Mac) {
    NextHop(s, t) == Some(via)
  }

  ghost function NextHop(s: seq<Route>, t: Target): Option<Mac> {
    if HasRoute(s, t) then Some(s[FirstRoute(s, t)].via) else None
  }

  ghost predicate Apart(s: seq<Route>, i: nat, j: nat) {
    i < j < |s| ==> !SameTarget(s[i].target, s[j].target)
  }

  /** No two entries stand for the same prefix. */
  ghost predicate Unique(s: seq<Route>) {
    forall i: nat, j: nat {:trigger Apart(s, i, j)} :: Apart(s, i, j)
  }

  /** route_remove, on a list without double entries: the entry goes if it points at the given node. */
  ghost function Removed(s: seq<Route>, t: Target, via: Mac): seq<Route> {
    if WasThere(s, t, via) then s[..FirstRoute(s, t)] + s[FirstRoute(s, t) + 1..] else s
  }

  lemma {:induction false} OnlyRoute(s: seq<Route>, t: Target, i: nat)
    requires Unique(s) && RouteAt(s, t, i)
    ensures HasRoute(s, t) && FirstRoute(s, t) == i && NextHop(s, t) == Some(s[i].via)
  {
    var k := FirstRoute(s, t);
    SameTargetEquivalence(s[i].target, t, t);
    SameTargetEquivalence(s[k].target, t, s[i].target);
    assert Apart(s, k, i);
  }

  // ---- the map

  /** Adding sets the next hop of the prefix and of no other. */
  lemma {:induction false} AddedIsUpdate(s: seq<Route>, t: Target, via: Mac, u: Target)
    requires Unique(s)
    ensures Unique(Added(s, t, via))
    ensures NextHop(Added(s, t, via), u) == if SameTarget(t, u) then Some(via) else NextHop(s, u)
  {
    var r := Added(s, t, via);
    if HasRoute(s, t) {
      var p := FirstRoute(s, t);
      forall i: nat, j: nat ensures Apart(r, i, j) {
        assert Apart(s, i, j);
      }
      SameTargetEquivalence(s[p].target, t, u);
      SameTargetEquivalence(t, s[p].target, u);
      if SameTarget(t, u) {
        OnlyRoute(r, u, p);
      } else if HasRoute(s, u) {
        OnlyRoute(r, u, FirstRoute(s, u));
      } else {
        NotAdded(s, r, u, p, via);
      }
    } else {
      forall i: nat, j: nat ensures Apart(r, i, j) {
        assert 0 < i < j ==> Apart(s, i - 1, j - 1);
        if i == 0 < j < |r| {
          SameTargetEquivalence(t, s[j - 1].target, t);
          assert !RouteAt(s, t, j - 1);
        }
      }
      if SameTarget(t, u) {
        OnlyRoute(r, u, 0);
      } else if HasRoute(s, u) {
        OnlyRoute(r, u, FirstRoute(s, u) + 1);
      } else {
        forall i: nat ensures !RouteAt(r, u, i) {
          assert i > 0 ==> !RouteAt(s, u, i - 1);
        }
      }
    }
  }

  lemma {:induction false} NotAdded(s: seq<Route>, r: seq<Route>, u: Target, p: nat, via: Mac)
    requires p < |s| && r == s[p := s[p].(via := via)] && !HasRoute(s, u)
    ensures !HasRoute(r, u)
  {
    forall i: nat ensures !RouteAt(r, u, i) {
      assert !RouteAt(s, u, i);
    }
  }

  /** Adding a route that was there changes nothing. */
  lemma {:induction false} AddedSame(s: seq<Route>, t: Target, via: Mac)
    ensures WasThere(s, t, via) ==> Added(s, t, via) == s
  {
    if WasThere(s, t, via) {
      var p := FirstRoute(s, t);
      assert s[p].(via := via) == s[p];
      assert s[p := s[p]] == s;
    }
  }

  /** Removing takes away the prefix if its next hop is the given one, and touches no other. */
  lemma {:induction false} RemovedIsUpdate(s: seq<Route>, t: Target, via: Mac, u: Target)
    requires Unique(s)
    ensures Unique(Removed(s, t, via))
    ensures NextHop(Removed(s, t, via), u) ==
              if SameTarget(t, u) && NextHop(s, t) == Some(via) then None else NextHop(s, u)
  {
    if WasThere(s, t, via) {
      var p := FirstRoute(s, t);
      var r := Removed(s, t, via);
      forall i: nat, j: nat ensures Apart(r, i, j) {
        assert Apart(s, if i < p then i else i + 1, if j < p then j else j + 1);
      }
      SameTargetEquivalence(s[p].target, t, u);
      SameTargetEquivalence(t, s[p].target, u);
      if !SameTarget(t, u) && HasRoute(s, u) {
        var q := FirstRoute(s, u);
        OnlyRoute(r, u, if q < p then q else q - 1);
      } else {
        forall i: nat ensures !RouteAt(r, u, i) {
          var j := if i < p then i else i + 1;
          if RouteAt(s, u, j) {
            OnlyRoute(s, u, j);
            OnlyRoute(s, u, p);
          }
        }
      }
    }
  }

  datatype RouteOp = AddRoute(target: Target, via: Mac) | RemoveRoute(target: Target, via: Mac)

  ghost function RunRoutes(ops: seq<RouteOp>): seq<Route> {
    if ops == [] then []
    else
      var s, op := RunRoutes(ops[..|ops| - 1]), ops[|ops| - 1];
      match op
      case AddRoute(t, via) => Added(s, t, via)
      case RemoveRoute(t, via) => Removed(s, t, via)
  }

  /** The next hop of one prefix after a run, without a list: the last matching operation decides. */
  ghost function RunHop(ops: seq<RouteOp>, u: Target): Option<Mac> {
    if ops == [] then None
    else
      var was, op := RunHop(ops[..|ops| - 1], u), ops[|ops| - 1];
      if !SameTarget(op.target, u) then was
      else if op.AddRoute? then Some(op.via)
      else if was == Some(op.via) then None
      else was
  }

  lemma {:induction false} SameHop(s: seq<Route>, t: Target, u: Target)
    requires Unique(s) && SameTarget(t, u)
    ensures NextHop(s, t) == NextHop(s, u)
  {
    if HasRoute(s, t) {
      var i := FirstRoute(s, t);
      SameTargetEquivalence(s[i].target, t, u);
      OnlyRoute(s, u, i);
    } else if HasRoute(s, u) {
      var i := FirstRoute(s, u);
      SameTargetEquivalence(t, u, t);
      SameTargetEquivalence(s[i].target, u, t);
      OnlyRoute(s, t, i);
    }
  }

  /** Over every run of additions and removals the list has one entry per prefix at most, and is the map. */
  lemma {:induction false} RunIsMap(ops: seq<RouteOp>, u: Target)
    ensures Unique(RunRoutes(ops)) && NextHop(RunRoutes(ops), u) == RunHop(ops, u)
  {
    if ops == [] {
    } else {
      var before, op := ops[..|ops| - 1], ops[|ops| - 1];
      RunIsMap(before, u);
      if op.AddRoute? {
        AddedIsUpdate(RunRoutes(before), op.target, op.via, u);
      } else {
        RemovedIsUpdate(RunRoutes(before), op.target, op.via, u);
        if SameTarget(op.target, u) {
          SameHop(RunRoutes(before), op.target, u);
        }
      }
    }
  }
}
