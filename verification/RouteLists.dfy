/**
 The routing table on the heap: a singly linked list of elements, edited in place and copied element by element.
 */
module RouteLists {
  import opened Address
  import opened Options
  import opened Routes
  import opened Sequences

  /** di_route_el. */
  class RouteEl {
    const target: Target
    var via: Mac
    var next: RouteEl?

    constructor (target: Target, via: Mac, next: RouteEl?)
      ensures this.target == target && this.via == via && this.next == next
    {
      this.target, this.via, this.next := target, via, next;
    }
  }

  function At(s: seq<RouteEl>, i: int): RouteEl? {
    if 0 <= i < |s| then s[i] else null
  }

  ghost predicate ElsApart(s: seq<RouteEl>, i: nat, j: nat) {
    i < j < |s| ==> s[i] != s[j]
  }

  ghost predicate Distinct(s: seq<RouteEl>) {
    forall i: nat, j: nat {:trigger ElsApart(s, i, j)} :: ElsApart(s, i, j)
  }

  class RouteList {
    var head: RouteEl?
    /** The elements from the head on, and the routes they stand for. */
    ghost var order: seq<RouteEl>
    ghost var elems: set<RouteEl>
    ghost var routes: seq<Route>

    ghost predicate Linked(i: nat)
      reads this`order, this`elems, this`routes, elems
    {
      i < |order| && i < |routes| ==>
        && order[i] in elems && order[i].next == At(order, i + 1)
        && routes[i] == Route(order[i].target, order[i].via)
    }

    ghost predicate Valid()
      reads this, elems
    {
      && |routes| == |order| && head == At(order, 0) && Distinct(order)
      && forall i: nat {:trigger Linked(i)} :: Linked(i)
    }

    constructor ()
      ensures Valid() && routes == [] && elems == {}
    {
      head, order, elems, routes := null, [], {}, [];
    }

    /** route_get: the entry for the target through a node. */
    method Get(t: Target, via: Mac) returns (r: RouteEl?)
      requires Valid() && Unique(routes)
      ensures r != null <==> NextHop(routes, t) == Some(via)
      ensures r != null ==> r in elems && SameTarget(r.target, t) && r.via == via
    {
      r := head;
      ghost var i: nat := 0;
      while r != null
        invariant i <= |routes| && r == At(order, i)
        invariant forall j: nat {:trigger RouteAt(routes, t, j)} :: j < i ==> !(RouteAt(routes, t, j) && routes[j].via == via)
        decreases |routes| - i
      {
        assert Linked(i);
        var c := CompareIpLen(r.target.prefix, t.prefix, t.length);
        if r.via == via && t.length == r.target.length && c == 0 {
          OnlyRoute(routes, t, i);
          return;
        }
        r := r.next;
        i := i + 1;
      }
    }

    /** route_add. The flag is the caller's: where the next hop of an entry is replaced it stays as it was. */
    method Add(t: Target, via: Mac, flag: bool) returns (wasThere: bool)
      requires Valid()
      modifies this, elems`via
      ensures Valid() && routes == Added(old(routes), t, via) && fresh(elems - old(elems))
      ensures wasThere == if WasThere(old(routes), t, via) then true else HasRoute(old(routes), t) && flag
    {
      wasThere := flag;
      var route := head;
      ghost var i: nat := 0;
      while route != null
        invariant i <= |routes| && route == At(order, i) && Valid() && routes == old(routes) && elems == old(elems)
        invariant wasThere == flag
        invariant forall j: nat {:trigger RouteAt(routes, t, j)} :: j < i ==> !RouteAt(routes, t, j)
        decreases |routes| - i
      {
        assert Linked(i);
        var c := CompareIpLen(route.target.prefix, t.prefix, t.length);
        if t.length == route.target.length && c == 0 {
          assert RouteAt(routes, t, i);
          if route.via == via {
            wasThere := true;
          } else {
            SetVia(route, via, i);
          }
          return;
        }
        route := route.next;
        i := i + 1;
      }
      Prepend(t, via);
      wasThere := false;
    }

    /** The entry at a place gets another next hop. */
    method SetVia(route: RouteEl, via: Mac, ghost i: nat)
      requires Valid() && i < |order| && order[i] == route && route in elems
      modifies this`routes, route`via
      ensures Valid() && routes == old(routes)[i := old(routes)[i].(via := via)]
    {
      assert Linked(i);
      route.via := via;
      routes := routes[i := routes[i].(via := via)];
      forall j: nat ensures Linked(j) {
        assert old(Linked(j)) && ElsApart(order, i, j) && ElsApart(order, j, i);
      }
    }

    /** LL_PREPEND of a new element. */
    method Prepend(t: Target, via: Mac)
      requires Valid()
      modifies this
      ensures Valid() && routes == [Route(t, via)] + old(routes) && fresh(elems - old(elems))
    {
      var el := new RouteEl(t, via, head);
      ghost var was := order;
      head := el;
      order, elems, routes := [el] + order, elems + {el}, [Route(t, via)] + routes;
      forall j: nat ensures Linked(j) {
        assert j > 0 ==> old(Linked(j - 1));
      }
      forall i: nat, j: nat ensures ElsApart(order, i, j) {
        assert 0 < i < j ==> ElsApart(was, i - 1, j - 1);
        assert 0 < j ==> old(Linked(j - 1));
      }
    }

    /** route_remove. */
    method Remove(t: Target, via: Mac) returns (found: bool)
      requires Valid() && Unique(routes)
      modifies this, elems`next
      ensures Valid() && routes == Removed(old(routes), t, via) && elems <= old(elems)
      ensures found <==> WasThere(old(routes), t, via)
    {
      var route := head;
      ghost var i: nat := 0;
      while route != null
        invariant i <= |routes| && route == At(order, i) && Valid() && routes == old(routes) && elems == old(elems)
        invariant forall j: nat {:trigger RouteAt(routes, t, j)} :: j < i ==> !(RouteAt(routes, t, j) && routes[j].via == via)
        decreases |routes| - i
      {
        assert Linked(i);
        var c := CompareIpLen(route.target.prefix, t.prefix, t.length);
        if route.via == via && t.length == route.target.length && c == 0 {
          OnlyRoute(routes, t, i);
          Unlink(route, i);
          return true;
        }
        route := route.next;
        i := i + 1;
      }
      found := false;
    }

    /** The search of LL_DELETE for the element before the one at place p. */
    method Before(del: RouteEl, ghost p: nat) returns (tmp: RouteEl)
      requires Valid() && 0 < p < |order| && order[p] == del
      ensures tmp == order[p - 1]
    {
      assert Linked(0);
      tmp := head;
      ghost var k: nat := 0;
      assert Linked(k);
      while tmp.next != null && tmp.next != del
        invariant k < p && tmp == order[k] && Linked(k)
        decreases p - k
      {
        assert ElsApart(order, k + 1, p);
        tmp := tmp.next;
        k := k + 1;
        assert Linked(k);
      }
      assert ElsApart(order, k + 1, p);
    }

    /** LL_DELETE: the element at place p leaves the list. */
    method Unlink(del: RouteEl, ghost p: nat)
      requires Valid() && p < |order| && order[p] == del
      modifies this, elems`next
      ensures Valid() && routes == old(routes)[..p] + old(routes)[p + 1..] && elems == old(elems) - {del}
    {
      assert Linked(p) && Linked(0) && ElsApart(order, 0, p);
      if head == del {
        head := del.next;
      } else {
        var tmp := Before(del, p);
        assert Linked(p - 1);
        tmp.next := del.next;
      }
      forall j: nat ensures Skips(j, p) {
        assert old(Linked(j)) && (p > 0 ==> ElsApart(order, j, p - 1) && ElsApart(order, p - 1, j));
      }
      Leave(del, p);
    }

    /** The list without the element that the links now pass over. */
    ghost method Leave(del: RouteEl, p: nat)
      requires p < |order| == |routes| && order[p] == del && Distinct(order)
      requires head == if p == 0 then At(order, 1) else At(order, 0)
      requires forall j: nat {:trigger Skips(j, p)} :: Skips(j, p)
      modifies this`order, this`elems, this`routes
      ensures Valid() && routes == old(routes)[..p] + old(routes)[p + 1..] && elems == old(elems) - {del}
    {
      ghost var was := order;
      order, elems, routes := RemoveAt(was, p), elems - {del}, routes[..p] + routes[p + 1..];
      forall i: nat ensures Linked(i) {
        ghost var j := if i < p then i else i + 1;
        assert old(Skips(j, p)) && ElsApart(was, j, p) && ElsApart(was, p, j);
      }
      forall i: nat, j: nat ensures ElsApart(order, i, j) {
        assert ElsApart(was, if i < p then i else i + 1, if j < p then j else j + 1);
      }
    }

    /** The links of a place, where the one before place p points past it. */
    ghost predicate Skips(j: nat, p: nat)
      reads this`order, this`elems, this`routes, elems
    {
      j < |order| && j < |routes| && j != p ==>
        && order[j] in elems && order[j].next == At(order, if j + 1 == p then p + 1 else j + 1)
        && routes[j] == Route(order[j].target, order[j].via)
    }

    /** route_dup: a list of elements of its own, with the same entries in the same order. */
    method Dup() returns (copy: RouteList)
      requires Valid()
      ensures fresh(copy) && fresh(copy.elems) && copy.Valid() && copy.routes == routes
    {
      copy := new RouteList();
      var route, last: RouteEl? := head, null;
      ghost var i: nat := 0;
      while route != null
        invariant i <= |routes| && route == At(order, i) && fresh(copy) && fresh(copy.elems)
        invariant copy.Valid() && copy.routes == routes[..i] && last == At(copy.order, i - 1)
        decreases |routes| - i
      {
        assert Linked(i) && (i > 0 ==> copy.Linked(i - 1));
        assert routes[..i] + [routes[i]] == routes[..i + 1];
        last := copy.Extend(route.target, route.via, last);
        route := route.next;
        i := i + 1;
      }
    }

    /** The body of the loop of route_dup: a new element behind the last one. */
    method Extend(t: Target, via: Mac, last: RouteEl?) returns (el: RouteEl)
      requires Valid() && last == At(order, |order| - 1)
      modifies this, last
      ensures Valid() && fresh(el) && elems == old(elems) + {el}
      ensures order == old(order) + [el] && routes == old(routes) + [Route(t, via)]
    {
      ghost var was, n := order, |order|;
      assert n > 0 ==> Linked(n - 1);
      el := new RouteEl(t, via, null);
      if last != null {
        last.next := el;
      }
      if head == null {
        head := el;
      }
      order, elems, routes := order + [el], elems + {el}, routes + [Route(t, via)];
      forall j: nat ensures Linked(j) {
        assert old(Linked(j)) && (n > 0 ==> ElsApart(was, j, n - 1));
      }
      forall i: nat, j: nat ensures ElsApart(order, i, j) {
        assert ElsApart(was, i, j) && old(Linked(i));
      }
    }
  }
}
