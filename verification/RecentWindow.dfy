/**
 The window of recently seen packets: an insertion-ordered container of at most 100
 digests, kept once per capture interface and once more by the sniffer front end.
 A digest that is seen again moves to the end; a new digest pushes out the oldest one.
 */
module RecentWindow {
  import opened Sequences

  const CAPACITY: nat := 100

  datatype Sighting<D, V> = Sighting(digest: D, info: V)

  predicate Seen<D(==), V>(w: seq<Sighting<D, V>>, d: D) {
    exists i :: 0 <= i < |w| && w[i].digest == d
  }

  ghost predicate Distinct<D(!new), V>(w: seq<Sighting<D, V>>) {
    forall i, j :: 0 <= i < j < |w| ==> w[i].digest != w[j].digest
  }

  /** The position of a digest in the container, or the length when it is absent: `hash_find`. */
  function Position<D(==), V>(w: seq<Sighting<D, V>>, d: D): (i: nat)
    ensures i <= |w|
    ensures i < |w| <==> Seen(w, d)
    ensures i < |w| ==> w[i].digest == d
    ensures forall j :: 0 <= j < i ==> w[j].digest != d
  {
    if w == [] then 0
    else if w[0].digest == d then 0
    else
      assert forall j :: 0 < j < |w| ==> w[j] == w[1..][j - 1];
      1 + Position(w[1..], d)
  }

  /** What one arrival does to a window of `CAPACITY` entries. */
  function Remember<D(==), V>(w: seq<Sighting<D, V>>, d: D, info: V): seq<Sighting<D, V>> {
    var kept :=
      if Position(w, d) < |w| then RemoveAt(w, Position(w, d))
      else if |w| >= CAPACITY then w[1..]
      else w;
    kept + [Sighting(d, info)]
  }

  /** The window after a whole history of arrivals. */
  function Replay<D(==), V>(h: seq<Sighting<D, V>>): seq<Sighting<D, V>> {
    if h == [] then []
    else
      var last := h[|h| - 1];
      Remember(Replay(h[..|h| - 1]), last.digest, last.info)
  }

  lemma {:induction false} ReplaySnoc<D(!new), V>(h: seq<Sighting<D, V>>, a: Sighting<D, V>)
    ensures Replay(h + [a]) == Remember(Replay(h), a.digest, a.info)
  {
    assert (h + [a])[..|h|] == h;
  }

  /** Independent reading of a history: the last sighting of every digest, oldest first. */
  function LastSightings<D(==), V>(h: seq<Sighting<D, V>>): seq<Sighting<D, V>> {
    if h == [] then []
    else if Seen(h[1..], h[0].digest) then LastSightings(h[1..])
    else [h[0]] + LastSightings(h[1..])
  }

  /** The digests that occur in a history. */
  function Digests<D(==), V>(h: seq<Sighting<D, V>>): set<D> {
    set i | 0 <= i < |h| :: h[i].digest
  }

  function LastOf<T>(s: seq<T>, n: nat): seq<T> {
    if |s| <= n then s else s[|s| - n..]
  }

  // ---- LastSightings holds each digest of the history once

  lemma {:induction false} LastSightingsSound<D(!new), V>(h: seq<Sighting<D, V>>)
    ensures Distinct(LastSightings(h))
    ensures forall d :: Seen(LastSightings(h), d) <==> Seen(h, d)
    ensures forall s :: s in LastSightings(h) ==> s in h
  {
    if h == [] {
    } else {
      var t := h[1..];
      LastSightingsSound(t);
      assert h == [h[0]] + t;
      forall d ensures Seen(h, d) <==> h[0].digest == d || Seen(t, d) {
        SeenCons(h[0], t, d);
      }
      if !Seen(t, h[0].digest) {
        var r := LastSightings(t);
        forall d ensures Seen([h[0]] + r, d) <==> h[0].digest == d || Seen(r, d) {
          SeenCons(h[0], r, d);
        }
        forall i, j | 0 <= i < j < |[h[0]] + r|
          ensures ([h[0]] + r)[i].digest != ([h[0]] + r)[j].digest
        {
          if i == 0 {
            assert r[j - 1].digest == ([h[0]] + r)[j].digest;
            assert Seen(r, r[j - 1].digest);
          }
        }
      }
    }
  }

  lemma {:induction false} SeenCons<D(!new), V>(x: Sighting<D, V>, t: seq<Sighting<D, V>>, d: D)
    ensures Seen([x] + t, d) <==> x.digest == d || Seen(t, d)
  {
    var s := [x] + t;
    if x.digest == d {
      assert s[0].digest == d;
    }
    if Seen(t, d) {
      var i :| 0 <= i < |t| && t[i].digest == d;
      assert s[i + 1].digest == d;
    }
    if Seen(s, d) {
      var i :| 0 <= i < |s| && s[i].digest == d;
      assert i > 0 ==> t[i - 1].digest == d;
    }
  }

  // ---- appending one arrival to the history

  function Forget<D(==), V>(w: seq<Sighting<D, V>>, d: D): seq<Sighting<D, V>> {
    if Position(w, d) < |w| then RemoveAt(w, Position(w, d)) else w
  }

  lemma {:induction false} LastSightingsSnoc<D(!new), V>(h: seq<Sighting<D, V>>, x: Sighting<D, V>)
    ensures LastSightings(h + [x]) == Forget(LastSightings(h), x.digest) + [x]
  {
    if h == [] {
      assert h + [x] == [x];
      assert LastSightings([x]) == [x] + LastSightings([]);
    } else {
      var a, t := h[0], h[1..];
      assert (h + [x])[1..] == t + [x];
      LastSightingsSnoc(t, x);
      SeenSnoc(t, x, a.digest);
      LastSightingsSound(t);
      var r := LastSightings(t);
      if !Seen(t, a.digest) {
        ForgetCons(a, r, x.digest);
      }
      if !Seen(t, a.digest) && a.digest != x.digest {
        assert [a] + (Forget(r, x.digest) + [x]) == ([a] + Forget(r, x.digest)) + [x];
      }
    }
  }

  lemma {:induction false} SeenSnoc<D(!new), V>(t: seq<Sighting<D, V>>, x: Sighting<D, V>, d: D)
    ensures Seen(t + [x], d) <==> Seen(t, d) || x.digest == d
  {
    var s := t + [x];
    if x.digest == d {
      assert s[|t|].digest == d;
    }
    if Seen(t, d) {
      var i :| 0 <= i < |t| && t[i].digest == d;
      assert s[i].digest == d;
    }
    if Seen(s, d) {
      var i :| 0 <= i < |s| && s[i].digest == d;
      assert i < |t| ==> t[i].digest == d;
    }
  }

  lemma {:induction false} ForgetCons<D(!new), V>(a: Sighting<D, V>, r: seq<Sighting<D, V>>, d: D)
    requires !Seen(r, a.digest)
    ensures Forget([a] + r, d) == if a.digest == d then r else [a] + Forget(r, d)
  {
    assert ([a] + r)[1..] == r;
    SeenCons(a, r, d);
    if a.digest != d && Seen(r, d) {
      var i := Position(r, d);
      assert ([a] + r)[..i + 1] == [a] + r[..i];
      assert ([a] + r)[i + 2..] == r[i + 1..];
      assert RemoveAt([a] + r, i + 1) == [a] + RemoveAt(r, i);
    }
  }

  // ---- the main results

  lemma {:induction false} SeenAt<D(!new), V>(w: seq<Sighting<D, V>>, i: nat)
    requires i < |w|
    ensures Seen(w, w[i].digest)
  {
  }

  /** A digest occurs in a suffix exactly when its one position lies there. */
  lemma {:induction false} PositionInSuffix<D(!new), V>(r: seq<Sighting<D, V>>, k: nat, d: D)
    requires Distinct(r) && k <= |r|
    ensures Seen(r[k..], d) <==> k <= Position(r, d) < |r|
    ensures Seen(r[k..], d) ==> Position(r[k..], d) == Position(r, d) - k
  {
    var p, q := Position(r, d), Position(r[k..], d);
    if q < |r[k..]| {
      assert r[k + q].digest == d;
    }
    if k <= p < |r| {
      assert r[k..][p - k].digest == d;
    }
  }

  lemma {:induction false} CutRemoveLate<T>(r: seq<T>, p: nat, k: nat, x: T)
    requires k <= p < |r|
    ensures (RemoveAt(r, p) + [x])[k..] == RemoveAt(r[k..], p - k) + [x]
  {
  }

  lemma {:induction false} CutRemoveEarly<T>(r: seq<T>, p: nat, k: nat, x: T)
    requires p < k < |r|
    ensures (RemoveAt(r, p) + [x])[k..] == r[k..][1..] + [x]
  {
  }

  lemma {:induction false} CutAppend<T>(r: seq<T>, k: nat, x: T)
    requires k < |r|
    ensures (r + [x])[k + 1..] == r[k..][1..] + [x]
  {
  }

  /** Keeping the last entries commutes with one arrival. */
  lemma {:induction false} RememberSuffix<D(!new), V>(r: seq<Sighting<D, V>>, x: Sighting<D, V>)
    requires Distinct(r)
    ensures Remember(LastOf(r, CAPACITY), x.digest, x.info)
         == LastOf(Forget(r, x.digest) + [x], CAPACITY)
  {
    var w := LastOf(r, CAPACITY);
    var k: nat, p := |r| - |w|, Position(r, x.digest);
    assert w == r[k..];
    PositionInSuffix(r, k, x.digest);
    assert x == Sighting(x.digest, x.info);
    if k <= p < |r| {
      CutRemoveLate(r, p, k, x);
      assert |Forget(r, x.digest) + [x]| == |r|;
    } else if p < |r| {
      CutRemoveEarly(r, p, k, x);
      assert |w| == CAPACITY;
      assert |Forget(r, x.digest) + [x]| == |r|;
    } else if |w| >= CAPACITY {
      CutAppend(r, k, x);
    } else {
      assert w == r;
    }
  }

  /** Over every history the window holds exactly the last 100 distinct digests, in order of recency,
      each with what its latest sighting recorded. */
  lemma {:induction false} WindowIsRecency<D(!new), V>(h: seq<Sighting<D, V>>)
    ensures Replay(h) == LastOf(LastSightings(h), 100)
    ensures Distinct(Replay(h)) && |Replay(h)| <= 100
  {
    LastSightingsSound(h);
    if h == [] {
    } else {
      var g, x := h[..|h| - 1], h[|h| - 1];
      assert h == g + [x];
      WindowIsRecency(g);
      LastSightingsSound(g);
      LastSightingsSnoc(g, x);
      RememberSuffix(LastSightings(g), x);
      assert Replay(h) == Remember(Replay(g), x.digest, x.info);
    }
    LastOfDistinct(LastSightings(h), CAPACITY);
  }

  lemma {:induction false} LastOfDistinct<D(!new), V>(w: seq<Sighting<D, V>>, n: nat)
    requires Distinct(w)
    ensures Distinct(LastOf(w, n)) && |LastOf(w, n)| <= n
  {
  }

  /** The number of entries of LastSightings is the number of distinct digests. */
  lemma {:induction false} LastSightingsCount<D(!new), V>(h: seq<Sighting<D, V>>)
    ensures |LastSightings(h)| == |Digests(h)|
  {
    if h == [] {
      assert Digests(h) == {};
    } else {
      LastSightingsCount(h[1..]);
      assert Digests(h) == Digests(h[1..]) + {h[0].digest} by {
        forall d ensures d in Digests(h) <==> d in Digests(h[1..]) + {h[0].digest} {
          assert h == [h[0]] + h[1..];
          SeenCons(h[0], h[1..], d);
          assert Seen(h, d) <==> d in Digests(h);
          assert Seen(h[1..], d) <==> d in Digests(h[1..]);
        }
      }
      assert Seen(h[1..], h[0].digest) <==> h[0].digest in Digests(h[1..]);
    }
  }

  lemma {:induction false} LastSightingsSplit<D(!new), V>(h: seq<Sighting<D, V>>, i: nat)
    requires i < |h| && !Seen(h[i + 1..], h[i].digest)
    ensures
      var tail := LastSightings(h[i + 1..]);
      var all := LastSightings(h);
      |all| > |tail| && all[|all| - |tail|..] == tail && all[|all| - |tail| - 1] == h[i]
  {
    var tail := LastSightings(h[i + 1..]);
    if i == 0 {
      assert LastSightings(h) == [h[0]] + tail;
    } else {
      assert h[1..][i - 1 + 1..] == h[i + 1..];
      LastSightingsSplit(h[1..], i - 1);
      var rest := LastSightings(h[1..]);
      if !Seen(h[1..], h[0].digest) {
        assert LastSightings(h) == [h[0]] + rest;
        assert ([h[0]] + rest)[|rest| + 1 - |tail|..] == rest[|rest| - |tail|..];
      }
    }
  }

  lemma {:induction false} SeenIffDigest<D(!new), V>(h: seq<Sighting<D, V>>, d: D)
    ensures Seen(h, d) <==> d in Digests(h)
  {
  }

  /** `i` is where digest `d` was last seen in `h`. */
  predicate LatestAt<D(==), V>(h: seq<Sighting<D, V>>, d: D, i: int) {
    0 <= i < |h| && h[i].digest == d && d !in Digests(h[i + 1..])
  }

  /** The digest was seen, and fewer than 100 other digests have arrived since it was last seen. */
  ghost predicate Recent<D(!new), V>(h: seq<Sighting<D, V>>, d: D) {
    exists i :: LatestAt(h, d, i) && |Digests(h[i + 1..])| < 100
  }

  /** A packet is taken for a duplicate exactly then. */
  lemma {:induction false} DuplicateIff<D(!new), V>(h: seq<Sighting<D, V>>, d: D)
    ensures Seen(Replay(h), d) <==> Recent(h, d)
  {
    WindowIsRecency(h);
    LastSightingsSound(h);
    var all := LastSightings(h);
    var k := |all| - |Replay(h)|;
    assert Replay(h) == all[k..];
    PositionInSuffix(all, k, d);
    forall i | LatestAt(h, d, i)
      ensures Seen(Replay(h), d) <==> |Digests(h[i + 1..])| < CAPACITY
    {
      SeenIffDigest(h[i + 1..], d);
      LastSightingsSplit(h, i);
      LastSightingsCount(h[i + 1..]);
      assert Position(all, d) == |all| - |LastSightings(h[i + 1..])| - 1;
    }
    if Seen(h, d) {
      var i := LatestIndex(h, d);
      SeenIffDigest(h[i + 1..], d);
      assert LatestAt(h, d, i);
    } else {
      forall i | 0 <= i < |h| ensures Seen(h, h[i].digest) { SeenAt(h, i); }
    }
  }

  /** What the window holds of a digest is what its latest sighting recorded. */
  lemma {:induction false} HeldIsLatest<D(!new), V>(h: seq<Sighting<D, V>>, d: D, i: int)
    requires LatestAt(h, d, i) && Seen(Replay(h), d)
    ensures Replay(h)[Position(Replay(h), d)].info == h[i].info
  {
    hide Replay, LastSightings, Digests, Seen;
    WindowIsRecency(h);
    LastSightingsSound(h);
    SeenIffDigest(h[i + 1..], d);
    LastSightingsSplit(h, i);
    var all := LastSightings(h);
    var k := |all| - |Replay(h)|;
    assert Replay(h) == all[k..];
    PositionInSuffix(all, k, d);
    assert Position(all, d) == |all| - |LastSightings(h[i + 1..])| - 1;
  }

  lemma {:induction false} LatestIndex<D(!new), V>(h: seq<Sighting<D, V>>, d: D) returns (i: nat)
    requires Seen(h, d)
    ensures i < |h| && h[i].digest == d && !Seen(h[i + 1..], d)
  {
    SeenCons(h[0], h[1..], d);
    assert h == [h[0]] + h[1..];
    if Seen(h[1..], d) {
      var j := LatestIndex(h[1..], d);
      i := j + 1;
      assert h[1..][j + 1..] == h[i + 1..];
    } else {
      i := 0;
    }
  }

  lemma {:induction false} RememberDistinct<D(!new), V>(w: seq<Sighting<D, V>>, d: D, info: V)
    requires Distinct(w)
    ensures Distinct(Remember(w, d, info))
    ensures Position(w, d) < |w| ==> !Seen(RemoveAt(w, Position(w, d)), d)
    ensures !Seen(w, d) && w != [] ==> !Seen(w[1..], d)
  {
    var i := Position(w, d);
    if i < |w| {
      var r := RemoveAt(w, i);
      forall j | 0 <= j < |r| ensures r[j].digest != d {
        assert r[j] == if j < i then w[j] else w[j + 1];
      }
    } else {
      forall j | 0 <= j < |w| ensures w[j].digest != d {
        SeenAt(w, j);
      }
    }
  }
}
