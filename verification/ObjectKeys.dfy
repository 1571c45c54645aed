/**
 The members of a DODAG and the DODAGs of an instance as entries of a container, keyed by the bytes of the reference.
 */
module ObjectKeys {
  import opened Address
  import opened NetworkState
  import opened OrderedMap
  import opened Sequences
  import opened Words

  // ---- the bytes of a reference

  function MacKey(m: Mac): (k: Key)
    ensures |k| == 8
  {
    StoreLittleEndian(Low(m)) + StoreLittleEndian(High(m))
  }

  /** Reading a reference back from its bytes. */
  function MacOf(k: Key): Mac
    requires |k| == 8
  {
    ((LoadLittleEndian(k[4], k[5], k[6], k[7]) as bv64) << 32) | (LoadLittleEndian(k[0], k[1], k[2], k[3]) as bv64)
  }

  lemma {:induction false} JoinHalves(m: Mac)
    ensures ((High(m) as bv64) << 32) | (Low(m) as bv64) == m
  {
  }

  lemma {:induction false} MacOfKey(m: Mac)
    ensures MacOf(MacKey(m)) == m
  {
    LoadStored(Low(m));
    LoadStored(High(m));
    JoinHalves(m);
  }

  lemma {:induction false} MacKeyInjective(m: Mac, n: Mac)
    requires MacKey(m) == MacKey(n)
    ensures m == n
  {
    MacOfKey(m);
    MacOfKey(n);
  }

  function IpKey(ip: Ip): (k: Key)
    ensures |k| == 16
  {
    StoreLittleEndian(ip.w0) + StoreLittleEndian(ip.w1) + StoreLittleEndian(ip.w2) + StoreLittleEndian(ip.w3)
  }

  function DodagKey(d: DodagId): (k: Key)
    ensures |k| == 18
  {
    IpKey(d.ip) + [d.version, 0]
  }

  lemma {:induction false} IpKeyInjective(a: Ip, b: Ip)
    requires IpKey(a) == IpKey(b)
    ensures a == b
  {
    var a0, a1, a2, a3 := StoreLittleEndian(a.w0), StoreLittleEndian(a.w1), StoreLittleEndian(a.w2), StoreLittleEndian(a.w3);
    var b0, b1, b2, b3 := StoreLittleEndian(b.w0), StoreLittleEndian(b.w1), StoreLittleEndian(b.w2), StoreLittleEndian(b.w3);
    SamePart(a0 + a1 + a2, b0 + b1 + b2, a3, b3);
    SamePart(a0 + a1, b0 + b1, a2, b2);
    SamePart(a0, b0, a1, b1);
    SameStored(a.w0, b.w0);
    SameStored(a.w1, b.w1);
    SameStored(a.w2, b.w2);
    SameStored(a.w3, b.w3);
  }

  lemma {:induction false} DodagKeyInjective(d: DodagId, e: DodagId)
    requires DodagKey(d) == DodagKey(e)
    ensures d == e
  {
    SamePart(IpKey(d.ip), IpKey(e.ip), [d.version, 0], [e.version, 0]);
    IpKeyInjective(d.ip, e.ip);
    assert [d.version, 0][0] == [e.version, 0][0];
  }

  // ---- lists of references as lists of keys

  function MacKeys(ms: seq<Mac>): (ks: seq<Key>)
    ensures |ks| == |ms|
  {
    seq(|ms|, i requires 0 <= i < |ms| => MacKey(ms[i]))
  }

  function DodagKeys(ds: seq<DodagId>): (ks: seq<Key>)
    ensures |ks| == |ds|
  {
    seq(|ds|, i requires 0 <= i < |ds| => DodagKey(ds[i]))
  }

  lemma {:induction false} MacListed(ms: seq<Mac>, m: Mac)
    ensures MacKey(m) in MacKeys(ms) <==> m in ms
    ensures MacKeys(ms + [m]) == MacKeys(ms) + [MacKey(m)]
  {
    if i :| 0 <= i < |ms| && MacKeys(ms)[i] == MacKey(m) {
      MacKeyInjective(ms[i], m);
    }
    if m in ms {
      var i :| 0 <= i < |ms| && ms[i] == m;
      assert MacKeys(ms)[i] == MacKey(m);
    }
  }

  lemma {:induction false} MacUnlisted(ms: seq<Mac>, m: Mac)
    ensures MacKeys(Without(ms, m)) == Without(MacKeys(ms), MacKey(m))
  {
    if ms == [] {
      assert MacKeys(ms) == [];
    } else {
      assert MacKeys(ms)[1..] == MacKeys(ms[1..]);
      if ms[0] != m {
        if MacKey(ms[0]) == MacKey(m) {
          MacKeyInjective(ms[0], m);
        }
        MacUnlisted(ms[1..], m);
        assert Without(ms, m) == [ms[0]] + Without(ms[1..], m);
        assert MacKeys([ms[0]] + Without(ms[1..], m)) == [MacKey(ms[0])] + MacKeys(Without(ms[1..], m));
      }
    }
  }

  lemma {:induction false} DodagListed(ds: seq<DodagId>, d: DodagId)
    ensures DodagKey(d) in DodagKeys(ds) <==> d in ds
    ensures DodagKeys(ds + [d]) == DodagKeys(ds) + [DodagKey(d)]
  {
    if i :| 0 <= i < |ds| && DodagKeys(ds)[i] == DodagKey(d) {
      DodagKeyInjective(ds[i], d);
    }
    if d in ds {
      var i :| 0 <= i < |ds| && ds[i] == d;
      assert DodagKeys(ds)[i] == DodagKey(d);
    }
  }

  // ---- lists of keys as contents of a container

  /** The container holds nothing but the references. */
  function Entries(ks: seq<Key>): (c: seq<Entry>)
    ensures |c| == |ks|
  {
    seq(|ks|, i requires 0 <= i < |ks| => Entry(ks[i], 0))
  }

  lemma {:induction false} KeyListed(ks: seq<Key>, k: Key)
    ensures HasKey(Entries(ks), k) <==> k in ks
  {
    if HasKey(Entries(ks), k) {
      assert ks[OrderedMap.PlaceOf(Entries(ks), k)] == k;
    }
    if k in ks {
      var i :| 0 <= i < |ks| && ks[i] == k;
      assert AtKey(Entries(ks), k, i);
    }
  }

  /** hash_add with HAM_OverwriteIfExists. */
  lemma {:induction false} AddKey(ks: seq<Key>, k: Key)
    ensures Step(Entries(ks), Add(k, 0, OverwriteIfExists)) == Entries(if k in ks then ks else ks + [k])
  {
    KeyListed(ks, k);
    if k in ks {
      var p := OrderedMap.PlaceOf(Entries(ks), k);
      assert Entries(ks)[p := Entry(k, 0)] == Entries(ks);
    } else {
      assert Entries(ks + [k]) == Entries(ks) + [Entry(k, 0)];
    }
  }

  lemma {:induction false} WithoutAt(ks: seq<Key>, k: Key, p: nat)
    requires p < |ks| && ks[p] == k && k !in ks[..p]
    ensures Without(ks, k) == RemoveAt(ks, p)
  {
    if p == 0 {
      assert ks[0] == k;
    } else {
      assert ks[0] == ks[..p][0] != k;
      assert ks[1..][..p - 1] == ks[..p][1..];
      WithoutAt(ks[1..], k, p - 1);
      assert RemoveAt(ks, p) == [ks[0]] + RemoveAt(ks[1..], p - 1);
    }
  }

  /** hash_delete. */
  lemma {:induction false} DeleteKey(ks: seq<Key>, k: Key)
    requires UniqueKeys(Entries(ks))
    ensures Step(Entries(ks), Delete(k)) == Entries(Without(ks, k))
  {
    KeyListed(ks, k);
    if k in ks {
      var p := OrderedMap.PlaceOf(Entries(ks), k);
      forall i | 0 <= i < p ensures ks[..p][i] != k {
        assert KeysApart(Entries(ks), i, p);
      }
      WithoutAt(ks, k, p);
      assert Entries(RemoveAt(ks, p)) == RemoveAt(Entries(ks), p);
    } else {
      WithoutAbsent(ks, k);
    }
  }

  // ---- sets of references as containers

  lemma {:induction false} AddMac(ms: seq<Mac>, m: Mac)
    ensures HasKey(Entries(MacKeys(ms)), MacKey(m)) <==> m in ms
    ensures Step(Entries(MacKeys(ms)), Add(MacKey(m), 0, OverwriteIfExists))
            == Entries(MacKeys(if m in ms then ms else ms + [m]))
  {
    MacListed(ms, m);
    KeyListed(MacKeys(ms), MacKey(m));
    AddKey(MacKeys(ms), MacKey(m));
  }

  lemma {:induction false} DeleteMac(ms: seq<Mac>, m: Mac)
    requires UniqueKeys(Entries(MacKeys(ms)))
    ensures HasKey(Entries(MacKeys(ms)), MacKey(m)) <==> m in ms
    ensures Step(Entries(MacKeys(ms)), Delete(MacKey(m))) == Entries(MacKeys(Without(ms, m)))
  {
    MacListed(ms, m);
    KeyListed(MacKeys(ms), MacKey(m));
    DeleteKey(MacKeys(ms), MacKey(m));
    MacUnlisted(ms, m);
  }

  lemma {:induction false} AddDodagId(ds: seq<DodagId>, d: DodagId)
    ensures HasKey(Entries(DodagKeys(ds)), DodagKey(d)) <==> d in ds
    ensures Step(Entries(DodagKeys(ds)), Add(DodagKey(d), 0, OverwriteIfExists))
            == Entries(DodagKeys(if d in ds then ds else ds + [d]))
  {
    DodagListed(ds, d);
    KeyListed(DodagKeys(ds), DodagKey(d));
    AddKey(DodagKeys(ds), DodagKey(d));
  }
}
