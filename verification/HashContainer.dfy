/**
 The containers of the analyser: a hash table owned by its container, and iterators over its elements.
 */
module HashContainer {
  import opened HashLinks
  import opened HashTable
  import opened Options
  import opened OrderedMap
  import opened Sequences

  class Container {
    const table: Table
    /** The data constructor. */
    const make: Key -> int

    constructor (hash: Key -> nat, make: Key -> int)
      ensures Valid() && Contents() == [] && this.make == make && table.hash == hash
      ensures fresh(table) && fresh(table.buckets) && table.elems == {}
    {
      this.make := make;
      table := new Table(hash);
    }

    ghost predicate Valid()
      reads table, table.buckets, table.elems
    {
      table.Valid() && UniqueKeys(table.contents)
    }

    ghost function Contents(): seq<Entry>
      reads table
    {
      table.contents
    }

    /** hash_add_ref. */
    method AddRef(key: Key, data: int, mode: Mode) returns (ok: bool, wasExisting: bool)
      requires Valid() && Enabled(Contents(), Add(key, data, mode))
      modifies table, table.buckets, table.elems
      ensures Valid() && Contents() == Step(old(Contents()), Add(key, data, mode))
      ensures ok <==> !(mode == FailIfExists && HasKey(old(Contents()), key))
      ensures wasExisting <==> HasKey(old(Contents()), key)
      ensures fresh(table.elems - old(table.elems)) && (table.buckets == old(table.buckets) || fresh(table.buckets))
    {
      StepIsMapUpdate(table.contents, Add(key, data, mode), key);
      var element: Elem? := null;
      if mode != NoCheck {
        element := table.Find(key);
        if element != null && mode == FailIfExists {
          return false, true;
        }
      }
      if element == null {
        var _ := table.AddKeyPtr(key, data);
        return true, false;
      }
      Overwrite(element, data);
      return true, true;
    }

    /** The branch of hash_add_ref that puts new data into an element. */
    method Overwrite(element: Elem, data: int)
      requires table.Valid() && UniqueKeys(table.contents) && element in table.elems
      modifies element`data, table`contents
      ensures table.Valid() && HasKey(old(table.contents), element.key)
      ensures table.contents == old(table.contents)[PlaceOf(old(table.contents), element.key) := Entry(element.key, data)]
    {
      ghost var p := table.PlaceInOrder(element);
      PlaceIsUnique(table.contents, element.key, p);
      element.data := data;
      table.contents := table.contents[p := Entry(element.key, data)];
      forall i: nat ensures table.EntryOk(i) {
        assert old(table.EntryOk(i)) && OrderLinks(table.order, table.elems, i);
        assert Apart(table.order, i, p) && Apart(table.order, p, i);
      }
      assert forall e :: e in table.elems ==> old(table.Placed(e));
    }

    /** hash_find, and the data of what it found. */
    method FindData(key: Key) returns (r: Option<int>)
      requires Valid()
      ensures r == Lookup(Contents(), key)
    {
      var element := table.Find(key);
      if element == null {
        return None;
      }
      ghost var p := table.PlaceInOrder(element);
      LookupAt(table.contents, key, p);
      return Some(element.data);
    }

    /** hash_value: the data of a key, made by the data constructor if the caller asks for that. */
    method Value(key: Key, create: bool) returns (r: Option<int>, wasCreated: bool)
      requires Valid()
      modifies table, table.buckets, table.elems
      ensures Valid() && r == Lookup(Contents(), key)
      ensures wasCreated <==> create && !HasKey(old(Contents()), key)
      ensures Contents() == if wasCreated then old(Contents()) + [Entry(key, make(key))] else old(Contents())
      ensures wasCreated ==> r == Some(make(key))
    {
      r := FindData(key);
      wasCreated := false;
      if r.None? && create {
        wasCreated := true;
        r := Some(make(key));
        AppendKeepsOthers(table.contents, key, make(key), key);
        var _, _ := AddRef(key, make(key), NoCheck);
      }
    }

    /** hash_delete. */
    method Delete(key: Key) returns (found: bool)
      requires Valid()
      modifies table, table.buckets, table.elems
      ensures Valid() && Contents() == Step(old(Contents()), Op.Delete(key))
      ensures found <==> HasKey(old(Contents()), key)
      ensures table.elems <= old(table.elems) && table.buckets == old(table.buckets)
    {
      StepIsMapUpdate(table.contents, Op.Delete(key), key);
      var element := table.Find(key);
      found := element != null;
      if element != null {
        ghost var p := table.PlaceInOrder(element);
        PlaceIsUnique(table.contents, key, p);
        table.Delete(element, p);
      }
    }

    /** hash_clear. */
    method Clear()
      requires Valid()
      modifies table, table.buckets, table.elems
      ensures Valid() && Contents() == Step(old(Contents()), Op.Clear)
    {
      table.Clear();
    }

    /** hash_size. */
    method Size() returns (n: nat)
      requires Valid()
      ensures n == |Contents()|
    {
      n := if table.head == null then 0 else table.numItems;
    }

    /** hash_dup: a container of its own with the same entries in the same order. */
    method Dup() returns (copy: Container)
      requires Valid()
      ensures fresh(copy) && fresh(copy.table) && fresh(copy.table.elems) && fresh(copy.table.buckets)
      ensures copy.Valid() && copy.Contents() == Contents()
    {
      hide Table.OrderOk, Table.BucketsOk;
      copy := new Container(table.hash, make);
      var it := new Iterator(this);
      while it.current != null
        invariant fresh(it) && fresh(copy) && fresh(copy.table) && fresh(copy.table.elems) && fresh(copy.table.buckets)
        invariant it.container == this && it.On() && copy.Valid() && copy.Contents() == Contents()[..it.pos]
        decreases |table.order| - it.pos
      {
        table.AtPlace(it.pos);
        PrefixLacks(table.contents, it.pos);
        var _, _ := copy.AddRef(it.current.key, it.current.data, NoCheck);
        it.Inc();
      }
    }
  }

  lemma {:induction false} PrefixLacks(c: seq<Entry>, p: nat)
    requires UniqueKeys(c) && p < |c|
    ensures !HasKey(c[..p], c[p].key) && c[..p] + [c[p]] == c[..p + 1]
  {
    forall i: nat ensures !AtKey(c[..p], c[p].key, i) {
      assert KeysApart(c, i, p);
    }
  }

  class Iterator {
    const container: Container
    var current: Elem?
    var next: Elem?
    var prev: Elem?
    /** How many elements lie behind. */
    ghost var pos: nat

    /** The iterator stands at its place, and knows the element after it. */
    ghost predicate On()
      reads this, container.table, container.table.buckets, container.table.elems
    {
      && container.Valid() && pos <= |container.table.order|
      && current == At(container.table.order, pos) && next == At(container.table.order, pos + 1)
    }

    /** hash_begin. */
    constructor (container: Container)
      requires container.Valid()
      ensures this.container == container && On() && pos == 0
    {
      assert OrderLinks(container.table.order, container.table.elems, 0);
      this.container, pos := container, 0;
      current := container.table.head;
      if container.table.head == null {
        next, prev := null, null;
      } else {
        next, prev := container.table.head.next, container.table.head.prev;
      }
    }

    /** hash_it_inc. */
    method Inc()
      requires On() && current != null
      modifies this
      ensures On() && pos == old(pos) + 1
    {
      assert OrderLinks(container.table.order, container.table.elems, pos + 1);
      prev := current;
      current := next;
      if current != null {
        next := current.next;
      } else {
        next := null;
      }
      pos := pos + 1;
    }

    /** hash_it_value. */
    method Value() returns (r: Option<int>)
      requires On()
      ensures r == if pos < |container.Contents()| then Some(container.Contents()[pos].data) else None
    {
      assert container.table.EntryOk(pos);
      r := if current != null then Some(current.data) else None;
    }

    /** hash_it_delete_value: the entry goes, and the iterator stands at the one after it. */
    method DeleteValue()
      requires On() && current != null
      modifies this, container.table, container.table.buckets, container.table.elems
      ensures On() && pos == old(pos) && container.Contents() == RemoveAt(old(container.Contents()), pos)
      ensures container.table.elems == old(container.table.elems) - {old(current)}
      ensures container.table.buckets == old(container.table.buckets)
    {
      RemoveKeepsOthers(container.table.contents, pos, []);
      assert OrderLinks(container.table.order, container.table.elems, pos + 1);
      var nextCurrent := next;
      var nextNext := if next != null then next.next else null;
      container.table.Delete(current, pos);
      prev := current;
      current, next := nextCurrent, nextNext;
    }
  }
}
