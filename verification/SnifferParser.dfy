/**
 The duplicate filter in front of the dissector, over whole captures.
 */
module SnifferParser {
  import opened DuplicateFilter
  import opened HashContainer
  import opened OrderedMap
  import opened Words
  import Sha1
  import W = RecentWindow

  /** A captured packet: its bytes, how they lie in memory, and the copy that the filter keeps. */
  datatype Captured = Captured(bytes: seq<bv8>, aligned: bool, stored: int)

  ghost predicate AllShort(packets: seq<Captured>) {
    forall i: nat {:trigger packets[i]} :: i < |packets| ==> |packets[i].bytes| < WORD
  }

  ghost function SightingOf(p: Captured): W.Sighting<Key, int>
    requires |p.bytes| < WORD
  {
    W.Sighting(DigestOf(p.bytes), p.stored)
  }

  ghost function History(packets: seq<Captured>): (h: Window)
    requires AllShort(packets)
    ensures |h| == |packets|
  {
    seq(|packets|, i requires 0 <= i < |packets| => SightingOf(packets[i]))
  }

  class Parser {
    const filter: Filter

    constructor (hash: Key -> nat)
      ensures filter.lastPackets.Valid() && AsWindow(filter.lastPackets.Contents()) == []
    {
      filter := new Filter(hash);
    }

    /** One packet of a capture. */
    method CheckNext(p: Captured, ghost h: Window) returns (dissect: bool)
      requires filter.lastPackets.Valid() && AsWindow(filter.lastPackets.Contents()) == W.Replay(h) && |p.bytes| < WORD
      modifies filter.lastPackets.table, filter.lastPackets.table.buckets, filter.lastPackets.table.elems
      ensures filter.lastPackets.Valid() && fresh(filter.lastPackets.table.elems - old(filter.lastPackets.table.elems))
      ensures filter.lastPackets.table.buckets == old(filter.lastPackets.table.buckets) || fresh(filter.lastPackets.table.buckets)
      ensures dissect <==> !W.Recent(h, SightingOf(p).digest)
      ensures AsWindow(filter.lastPackets.Contents()) == W.Replay(h + [SightingOf(p)])
    {
      hide W.Replay, W.Remember, W.Recent, W.Seen, AsWindow, Sha1.ReadCtx;
      W.DuplicateIff(h, SightingOf(p).digest);
      W.ReplaySnoc(h, SightingOf(p));
      var isDuplicate := filter.CheckDuplicatePacket(p.bytes, p.aligned, p.stored);
      dissect := !isDuplicate;
    }

    /** A whole capture: a packet is dissected if and only if no packet with its digest came before it with fewer than
        100 other digests in between. */
    method CheckAll(packets: seq<Captured>) returns (dissected: seq<bool>)
      requires filter.lastPackets.Valid() && filter.lastPackets.Contents() == [] && AllShort(packets)
      modifies filter.lastPackets.table, filter.lastPackets.table.buckets, filter.lastPackets.table.elems
      ensures filter.lastPackets.Valid() && AsWindow(filter.lastPackets.Contents()) == W.Replay(History(packets))
      ensures |dissected| == |packets|
      ensures forall i: nat {:trigger dissected[i]} :: i < |packets| ==>
                (dissected[i] <==> !W.Recent(History(packets)[..i], History(packets)[i].digest))
    {
      hide W.Remember, W.Recent, SightingOf, Container.Valid;
      ghost var h := History(packets);
      dissected := [];
      var k := 0;
      while k < |packets|
        invariant k <= |packets| == |h| && |dissected| == k && filter.lastPackets.Valid()
        invariant fresh(filter.lastPackets.table.elems - old(filter.lastPackets.table.elems))
        invariant filter.lastPackets.table.buckets == old(filter.lastPackets.table.buckets) || fresh(filter.lastPackets.table.buckets)
        invariant AsWindow(filter.lastPackets.Contents()) == W.Replay(h[..k])
        invariant forall i: nat {:trigger dissected[i]} :: i < k ==> (dissected[i] <==> !W.Recent(h[..i], h[i].digest))
      {
        assert h[k] == SightingOf(packets[k]) && h[..k] + [h[k]] == h[..k + 1];
        var dissect := CheckNext(packets[k], h[..k]);
        dissected := dissected + [dissect];
        k := k + 1;
      }
      assert h[..k] == h;
    }
  }
}
