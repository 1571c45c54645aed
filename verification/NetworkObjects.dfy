/**
 The objects of the network on the heap. A node has its routes on a list of its own, a DODAG its members and an
 instance its DODAGs in a container of its own; setters edit them in place, and only the copy that a dup function makes
 keeps two objects from sharing them.
 */
module NetworkObjects {
  import opened Address
  import opened NetworkState
  import opened ObjectKeys
  import opened Options
  import opened OrderedMap
  import opened RouteLists
  import opened Routes
  import opened Sequences
  import H = HashContainer
  import L = HashLinks

  /** The fields that lie in the struct itself. */
  datatype Fields =
    | NodeFields(dodag: Option<DodagId>, errors: Errors)
    | LinkFields(deprecated: bool)
    | DodagFields(instance: Option<nat>)
    | InstanceFields(mop: nat)

  function FieldsOf(c: Content): Fields {
    match c
    case Node(dodag, _, errors) => NodeFields(dodag, errors)
    case Link(deprecated) => LinkFields(deprecated)
    case Dodag(_, instance) => DodagFields(instance)
    case Instance(_, mop) => InstanceFields(mop)
  }

  ghost predicate SameKind(c: Content, f: Fields) {
    (c.Node? <==> f.NodeFields?) && (c.Link? <==> f.LinkFields?) && (c.Dodag? <==> f.DodagFields?)
    && (c.Instance? <==> f.InstanceFields?)
  }

  ghost function WithFields(c: Content, f: Fields): Content
    requires SameKind(c, f)
  {
    match f
    case NodeFields(dodag, errors) => c.(dodag := dodag, errors := errors)
    case LinkFields(deprecated) => Link(deprecated)
    case DodagFields(instance) => c.(instance := instance)
    case InstanceFields(mop) => c.(mop := mop)
  }

  /** What setters do to the tracked state of an object. */
  datatype Edit =
    | EditFields(fields: Fields)
    | PutRoute(target: Target, via: Mac)
    | TakeRoute(target: Target, via: Mac)
    | PutMember(mac: Mac)
    | TakeMember(mac: Mac)
    | PutDodag(dodag: DodagId)

  ghost predicate Suits(c: Content, e: Edit) {
    match e
    case EditFields(f) => SameKind(c, f)
    case PutRoute(_, _) => c.Node?
    case TakeRoute(_, _) => c.Node? && Unique(c.routes)
    case PutMember(_) => c.Dodag?
    case TakeMember(_) => c.Dodag?
    case PutDodag(_) => c.Instance?
  }

  ghost function Edited(c: Content, e: Edit): Content
    requires Suits(c, e)
  {
    match e
    case EditFields(f) => WithFields(c, f)
    case PutRoute(t, via) => c.(routes := Added(c.routes, t, via))
    case TakeRoute(t, via) => c.(routes := Removed(c.routes, t, via))
    case PutMember(mac) => c.(members := if mac in c.members then c.members else c.members + [mac])
    case TakeMember(mac) => c.(members := Without(c.members, mac))
    case PutDodag(d) => c.(dodags := if d in c.dodags then c.dodags else c.dodags + [d])
  }

  /** What the edit reports: that the route, the member or the DODAG was there before. */
  ghost predicate WasThereFor(c: Content, e: Edit)
    requires Suits(c, e)
  {
    match e
    case EditFields(_) => false
    case PutRoute(t, via) => WasThere(c.routes, t, via)
    case TakeRoute(t, via) => WasThere(c.routes, t, via)
    case PutMember(mac) => mac in c.members
    case TakeMember(mac) => mac in c.members
    case PutDodag(d) => d in c.dodags
  }

  /** A route list with all its elements lies in a set of cells. */
  ghost predicate ListIn(list: RouteList, cells: set<object>)
    reads list
  {
    list in cells && list.elems <= cells
  }

  /** So does a container with its table, buckets and elements. */
  ghost predicate SetIn(c: H.Container, cells: set<object>)
    reads c.table
  {
    c in cells && c.table in cells && c.table.buckets in cells && c.table.elems <= cells
  }

  class Obj {
    const ref: Ref
    var fields: Fields
    /** The routes of a node. */
    const routes: RouteList?
    /** The members of a DODAG, or the DODAGs of an instance. */
    const members: H.Container?
    var count: nat
    var changed: bool
    /** The tracked state that the fields and the cells stand for, and the cells. */
    ghost var content: Content
    ghost var cells: set<object>

    ghost predicate RoutesReal(s: seq<Route>)
      reads this`cells, cells
    {
      routes != null && routes in cells && ListIn(routes, cells) && routes.Valid() && routes.routes == s
    }

    ghost predicate MembersReal(ks: seq<Key>)
      reads this`cells, cells
    {
      && members != null && members in cells && members.table in cells && SetIn(members, cells)
      && members.Valid() && members.Contents() == Entries(ks)
    }

    /** The object really has this tracked state. */
    ghost predicate Real()
      reads this`fields, this`content, this`cells, cells
    {
      && this !in cells && Fits(ref, content) && fields == FieldsOf(content)
      && (content.Node? ==> RoutesReal(content.routes))
      && (content.Dodag? ==> MembersReal(MacKeys(content.members)))
      && (content.Instance? ==> MembersReal(DodagKeys(content.dodags)))
    }

    /** What a reader of the object finds, following its pointers element by element. */
    ghost predicate Shows(c: Content)
      requires Real()
      reads this`fields, this`content, this`cells, cells
    {
      && Fits(ref, c) && fields == FieldsOf(c)
      && (c.Node? ==> ShowsRoutes(c.routes))
      && (c.Dodag? ==> ShowsKeys(MacKeys(c.members)))
      && (c.Instance? ==> ShowsKeys(DodagKeys(c.dodags)))
    }

    ghost predicate ShowsRoutes(s: seq<Route>)
      requires Real() && Fits(ref, content) && content.Node?
      reads this`fields, this`content, this`cells, cells
    {
      |routes.order| == |s| && routes.head == At(routes.order, 0)
      && forall i: nat {:trigger routes.order[i]} :: i < |s| ==>
           routes.order[i] in cells && routes.order[i].next == At(routes.order, i + 1)
           && Route(routes.order[i].target, routes.order[i].via) == s[i]
    }

    ghost predicate ShowsKeys(ks: seq<Key>)
      requires Real() && (content.Dodag? || content.Instance?)
      reads this`fields, this`content, this`cells, cells
    {
      var order := members.table.order;
      |order| == |ks| && members.table.head == L.At(order, 0)
      && forall i: nat {:trigger order[i]} :: i < |ks| ==>
           order[i] in cells && order[i].next == L.At(order, i + 1) && order[i].key == ks[i]
    }

    lemma {:induction false} RealShows()
      requires Real()
      ensures Shows(content)
    {
      match content
      case Node(_, rs, _) =>
        forall i: nat | i < |rs| ensures routes.order[i] in cells && routes.order[i].next == At(routes.order, i + 1)
                                         && Route(routes.order[i].target, routes.order[i].via) == rs[i] {
          assert routes.Linked(i);
        }
      case Dodag(ms, _) => KeysShown(MacKeys(ms));
      case Instance(ds, _) => KeysShown(DodagKeys(ds));
      case Link(_) =>
    }

    lemma {:induction false} KeysShown(ks: seq<Key>)
      requires Real() && (content.Dodag? || content.Instance?) && MembersReal(ks)
      ensures ShowsKeys(ks)
    {
      var t := members.table;
      forall i: nat | i < |ks|
        ensures t.order[i] in cells && t.order[i].next == L.At(t.order, i + 1) && t.order[i].key == ks[i]
      {
        assert L.OrderLinks(t.order, t.elems, i) && t.EntryOk(i);
        assert t.contents[i] == Entries(ks)[i];
      }
    }

    /** node_init and its siblings. */
    constructor (ref: Ref, hash: Key -> nat)
      ensures Real() && this.ref == ref && content == Init(ref) && count == 0 && changed && fresh(cells)
    {
      this.ref, fields, count, changed := ref, FieldsOf(Init(ref)), 0, true;
      content := Init(ref);
      if ref.NodeRef? {
        var list := new RouteList();
        routes, members, cells := list, null, {list};
      } else if ref.DodagRef? || ref.InstanceRef? {
        var container := new H.Container(hash, _ => 0);
        routes, members, cells := null, container, {container, container.table, container.table.buckets};
      } else {
        routes, members, cells := null, null, {};
      }
    }

    /** A struct with the given fields and pointers. */
    constructor With(ref: Ref, fields: Fields, count: nat, changed: bool, routes: RouteList?, members: H.Container?,
                     ghost content: Content, ghost cells: set<object>)
      ensures this.ref == ref && this.fields == fields && this.count == count && this.changed == changed
      ensures this.routes == routes && this.members == members && this.content == content && this.cells == cells
    {
      this.ref, this.fields, this.count, this.changed := ref, fields, count, changed;
      this.routes, this.members, this.content, this.cells := routes, members, content, cells;
    }

    /** node_dup and its siblings: the struct is copied, and what its pointers lead to is copied too. */
    method Dup() returns (copy: Obj)
      requires Real()
      ensures fresh(copy) && fresh(copy.cells) && copy.Real()
      ensures copy.ref == ref && copy.content == content && copy.count == count && copy.changed == changed
    {
      var list, container := routes, members;
      ghost var own: set<object> := {};
      if ref.NodeRef? {
        list := routes.Dup();
        own := {list} + list.elems;
      } else if ref.DodagRef? || ref.InstanceRef? {
        container := members.Dup();
        own := {container, container.table, container.table.buckets} + container.table.elems;
      }
      copy := new Obj.With(ref, fields, count, changed, list, container, content, own);
    }

    /** Assignments to fields of the struct. */
    method Assign(f: Fields)
      requires Real() && SameKind(content, f)
      modifies this`fields, this`content
      ensures Real() && content == WithFields(old(content), f)
    {
      content := WithFields(content, f);
      fields := f;
    }

    method EditRoutes(e: Edit) returns (found: bool)
      requires Real() && Suits(content, e) && (e.PutRoute? || e.TakeRoute?)
      modifies this`content, this`cells, cells
      ensures Real() && content == Edited(old(content), e) && found == WasThereFor(old(content), e)
      ensures old(cells) <= cells && fresh(cells - old(cells))
    {
      ghost var c := content;
      if e.PutRoute? {
        found := routes.Add(e.target, e.via, false);
      } else {
        found := routes.Remove(e.target, e.via);
      }
      content := Edited(c, e);
      cells := cells + routes.elems;
    }

    /** hash_add on the container, and the cells that it may have got. */
    method InsertKey(key: Key) returns (found: bool)
      requires members != null && members in cells && members.table in cells && SetIn(members, cells) && members.Valid()
      requires this !in cells
      modifies this`cells, cells
      ensures old(cells) <= cells && fresh(cells - old(cells)) && SetIn(members, cells) && members.Valid()
      ensures members.Contents() == Step(old(members.Contents()), Add(key, 0, OverwriteIfExists))
      ensures found == HasKey(old(members.Contents()), key)
    {
      var ok;
      ok, found := members.AddRef(key, 0, OverwriteIfExists);
      cells := cells + {members.table.buckets} + members.table.elems;
    }

    method InsertMember(mac: Mac) returns (found: bool)
      requires Real() && content.Dodag?
      modifies this`content, this`cells, cells
      ensures Real() && content == Edited(old(content), PutMember(mac)) && found == (mac in old(content).members)
      ensures old(cells) <= cells && fresh(cells - old(cells))
    {
      AddMac(content.members, mac);
      found := InsertKey(MacKey(mac));
      content := Edited(content, PutMember(mac));
    }

    method DeleteMember(mac: Mac) returns (found: bool)
      requires Real() && content.Dodag?
      modifies this`content, cells
      ensures Real() && content == Edited(old(content), TakeMember(mac)) && found == (mac in old(content).members)
    {
      DeleteMac(content.members, mac);
      found := members.Delete(MacKey(mac));
      content := Edited(content, TakeMember(mac));
    }

    method InsertDodag(d: DodagId) returns (found: bool)
      requires Real() && content.Instance?
      modifies this`content, this`cells, cells
      ensures Real() && content == Edited(old(content), PutDodag(d)) && found == (d in old(content).dodags)
      ensures old(cells) <= cells && fresh(cells - old(cells))
    {
      AddDodagId(content.dodags, d);
      found := InsertKey(DodagKey(d));
      content := Edited(content, PutDodag(d));
    }

    /** Any of the edits, on the fields and cells of this object. */
    method Apply(e: Edit) returns (found: bool)
      requires Real() && Suits(content, e)
      modifies this`fields, this`content, this`cells, cells
      ensures Real() && content == Edited(old(content), e) && found == WasThereFor(old(content), e)
      ensures old(cells) <= cells && fresh(cells - old(cells))
    {
      match e
      case EditFields(f) =>
        Assign(f);
        found := false;
      case PutRoute(_, _) => found := EditRoutes(e);
      case TakeRoute(_, _) => found := EditRoutes(e);
      case PutMember(mac) => found := InsertMember(mac);
      case TakeMember(mac) => found := DeleteMember(mac);
      case PutDodag(d) => found := InsertDodag(d);
    }
  }
}
