/**
 The container of recent packets that both duplicate filters of the analyser keep, one per capture interface and one in
 front of the dissector: digests as keys, oldest first.
 */
module DuplicateFilter {
  import opened HashContainer
  import opened OrderedMap
  import opened Sequences
  import opened Sha1Spec
  import opened Words
  import Sha1
  import opened Options
  import W = RecentWindow

  type Window = seq<W.Sighting<Key, int>>

  // ---- the key of a digest: the twenty bytes that sha1_buffer leaves in memory

  lemma {:induction false} SameParts(a: Key, b: Key, c: Key, d: Key, e: Key, a1: Key, b1: Key, c1: Key, d1: Key, e1: Key)
    requires |a| == |a1| && |b| == |b1| && |c| == |c1| && |d| == |d1| && |e| == |e1|
    requires a + b + c + d + e == a1 + b1 + c1 + d1 + e1
    ensures a == a1 && b == b1 && c == c1 && d == d1 && e == e1
  {
    SamePart(a + b + c + d, a1 + b1 + c1 + d1, e, e1);
    SamePart(a + b + c, a1 + b1 + c1, d, d1);
    SamePart(a + b, a1 + b1, c, c1);
    SamePart(a, a1, b, b1);
  }

  /** Different digests have different keys. */
  lemma {:induction false} KeyInjective(r: Regs, s: Regs)
    requires Sha1.ReadCtx(r) == Sha1.ReadCtx(s)
    ensures r == s
  {
    Sha1.ReadCtxIsDigest(r);
    Sha1.ReadCtxIsDigest(s);
    SameParts(BigBytes(r.a), BigBytes(r.b), BigBytes(r.c), BigBytes(r.d), BigBytes(r.e),
              BigBytes(s.a), BigBytes(s.b), BigBytes(s.c), BigBytes(s.d), BigBytes(s.e));
    SameBigBytes(r.a, s.a);
    SameBigBytes(r.b, s.b);
    SameBigBytes(r.c, s.c);
    SameBigBytes(r.d, s.d);
    SameBigBytes(r.e, s.e);
  }

  // ---- the container as a window

  function AsWindow(c: seq<Entry>): (w: Window)
    ensures |w| == |c|
  {
    seq(|c|, i requires 0 <= i < |c| => W.Sighting(c[i].key, c[i].data))
  }

  lemma {:induction false} SeenIffKey(c: seq<Entry>, key: Key)
    ensures HasKey(c, key) <==> W.Seen(AsWindow(c), key)
  {
    if HasKey(c, key) {
      W.SeenAt(AsWindow(c), PlaceOf(c, key));
    }
    if W.Seen(AsWindow(c), key) {
      assert AtKey(c, key, W.Position(AsWindow(c), key));
    }
  }

  lemma {:induction false} PlaceIsPosition(c: seq<Entry>, key: Key)
    requires UniqueKeys(c) && HasKey(c, key)
    ensures W.Position(AsWindow(c), key) == PlaceOf(c, key)
  {
    SeenIffKey(c, key);
    PlaceIsUnique(c, key, W.Position(AsWindow(c), key));
  }

  lemma {:induction false} WindowOfRemoved(c: seq<Entry>, p: nat)
    requires p < |c|
    ensures AsWindow(RemoveAt(c, p)) == RemoveAt(AsWindow(c), p)
  {
  }

  lemma {:induction false} WindowOfAppended(c: seq<Entry>, key: Key, data: int)
    ensures AsWindow(c + [Entry(key, data)]) == AsWindow(c) + [W.Sighting(key, data)]
  {
  }

  function DigestOf(packet: seq<bv8>): Key
    requires |packet| < WORD
  {
    Sha1.ReadCtx(Sha1Spec.Sha1(packet))
  }

  class Filter {
    const lastPackets: Container

    constructor (hash: Key -> nat)
      ensures lastPackets.Valid() && AsWindow(lastPackets.Contents()) == []
      ensures fresh(lastPackets.table) && fresh(lastPackets.table.buckets) && lastPackets.table.elems == {}
    {
      lastPackets := new Container(hash, _ => 0);
    }

    /** check_duplicate_packet and interfacemgr_check_duplicate_packet. What is stored with the digest is a value of the
        caller's. */
    method CheckDuplicatePacket(packet: seq<bv8>, aligned: bool, stored: int) returns (isDuplicate: bool)
      requires lastPackets.Valid() && |packet| < WORD
      modifies lastPackets.table, lastPackets.table.buckets, lastPackets.table.elems
      ensures lastPackets.Valid() && fresh(lastPackets.table.elems - old(lastPackets.table.elems))
      ensures lastPackets.table.buckets == old(lastPackets.table.buckets) || fresh(lastPackets.table.buckets)
      ensures isDuplicate <==> W.Seen(AsWindow(old(lastPackets.Contents())), DigestOf(packet))
      ensures AsWindow(lastPackets.Contents()) == W.Remember(AsWindow(old(lastPackets.Contents())), DigestOf(packet), stored)
    {
      var digest := Sha1.Sha1Buffer(packet, aligned);
      var key := Sha1.ReadCtx(digest);
      ghost var before := lastPackets.Contents();
      SeenIffKey(before, key);
      isDuplicate := MakeRoom(key);
      WindowOfAppended(lastPackets.Contents(), key, stored);
      var _, _ := lastPackets.AddRef(key, stored, FailIfExists);
    }

    /** interfacemgr_get_old_packet: what was stored with the digest of a packet. */
    method GetOldPacket(packet: seq<bv8>, aligned: bool) returns (r: Option<int>)
      requires lastPackets.Valid() && |packet| < WORD
      ensures var w, d := AsWindow(lastPackets.Contents()), DigestOf(packet);
              r == if W.Seen(w, d) then Some(w[W.Position(w, d)].info) else None
    {
      var digest := Sha1.Sha1Buffer(packet, aligned);
      var key := Sha1.ReadCtx(digest);
      SeenIffKey(lastPackets.Contents(), key);
      if W.Seen(AsWindow(lastPackets.Contents()), key) {
        PlaceIsPosition(lastPackets.Contents(), key);
      }
      r := lastPackets.FindData(key);
    }

    /** The two branches that take an entry out: the one with the digest, or the oldest of a full container. */
    method MakeRoom(key: Key) returns (isDuplicate: bool)
      requires lastPackets.Valid()
      modifies lastPackets.table, lastPackets.table.buckets, lastPackets.table.elems
      ensures lastPackets.Valid() && lastPackets.table.elems <= old(lastPackets.table.elems)
      ensures lastPackets.table.buckets == old(lastPackets.table.buckets)
      ensures isDuplicate <==> HasKey(old(lastPackets.Contents()), key)
      ensures !HasKey(lastPackets.Contents(), key)
      ensures var w := AsWindow(old(lastPackets.Contents()));
              AsWindow(lastPackets.Contents()) ==
                if isDuplicate && W.Seen(w, key) then RemoveAt(w, W.Position(w, key))
                else if |w| >= W.CAPACITY then w[1..] else w
    {
      ghost var c := lastPackets.Contents();
      SeenIffKey(c, key);
      isDuplicate := lastPackets.Delete(key);
      if isDuplicate {
        PlaceIsPosition(c, key);
        WindowOfRemoved(c, PlaceOf(c, key));
        StepIsMapUpdate(c, Delete(key), key);
      } else {
        var n := lastPackets.Size();
        if n >= W.CAPACITY {
          var it := new Iterator(lastPackets);
          WindowOfRemoved(c, 0);
          RemoveKeepsOthers(c, 0, key);
          it.DeleteValue();
        }
      }
    }
  }
}
