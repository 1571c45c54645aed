/**
 The links of the hash table: every element is on two doubly linked lists, the list of all elements in insertion
 order and the chain of its bucket. The predicates say, for a position on a list, what its links are.
 */
module HashLinks {
  import opened OrderedMap
  import opened Sequences

  class Elem {
    const key: Key
    const hashv: nat
    /** The stored data pointer. */
    var data: int
    var prev: Elem?
    var next: Elem?
    var hhPrev: Elem?
    var hhNext: Elem?

    constructor (key: Key, hashv: nat, data: int)
      ensures this.key == key && this.hashv == hashv && this.data == data
      ensures prev == null && next == null && hhPrev == null && hhNext == null
    {
      this.key, this.hashv, this.data := key, hashv, data;
      prev, next, hhPrev, hhNext := null, null, null, null;
    }
  }

  function At(s: seq<Elem>, i: int): Elem? {
    if 0 <= i < |s| then s[i] else null
  }

  // ---- the mask of a power of two

  function BitAnd(a: nat, b: nat): nat {
    if a == 0 || b == 0 then 0 else 2 * BitAnd(a / 2, b / 2) + (a % 2) * (b % 2)
  }

  function Pow2(k: nat): (p: nat)
    ensures p > 0
  {
    if k == 0 then 1 else 2 * Pow2(k - 1)
  }

  /** Masking with 2^k - 1 is the remainder by 2^k. */
  lemma {:induction false} MaskIsRemainder(h: nat, k: nat)
    ensures BitAnd(h, Pow2(k) - 1) == h % Pow2(k)
  {
    if k == 0 || h == 0 {
      assert Pow2(0) == 1;
      assert h == 0 ==> h % Pow2(k) == 0;
    } else {
      var p := Pow2(k - 1);
      assert Pow2(k) == 2 * p;
      MaskIsRemainder(h / 2, k - 1);
      assert (2 * p - 1) / 2 == p - 1 && (2 * p - 1) % 2 == 1;
      HalveRemainder(h, p);
    }
  }

  lemma {:induction false} HalveRemainder(h: nat, p: nat)
    requires p > 0
    ensures h % (2 * p) == 2 * ((h / 2) % p) + h % 2 && h / (2 * p) == (h / 2) / p
  {
    var q, r := (h / 2) / p, (h / 2) % p;
    assert h / 2 == p * q + r;
    assert h == (2 * p) * q + (2 * r + h % 2);
    RemainderUnique(h, 2 * p, q, 2 * r + h % 2);
  }

  lemma {:induction false} RemainderUnique(h: nat, d: nat, q: nat, r: nat)
    requires r < d && h == d * q + r
    ensures h % d == r && h / d == q
  {
    if q <= h / d {
      MulMonotone(d, q + 1, h / d);
    } else {
      MulMonotone(d, h / d + 1, q);
    }
  }

  lemma {:induction false} MulMonotone(d: nat, a: nat, b: nat)
    ensures a <= b ==> d * a <= d * b
  {
  }

  function ShiftRight(x: nat, k: nat): nat {
    if k == 0 then x else ShiftRight(x / 2, k - 1)
  }

  lemma {:induction false} ShiftIsQuotient(x: nat, k: nat)
    ensures ShiftRight(x, k) == x / Pow2(k)
  {
    if k == 0 {
    } else {
      ShiftIsQuotient(x / 2, k - 1);
      HalveRemainder(x, Pow2(k - 1));
    }
  }

  lemma {:induction false} ShiftByOne(x: nat)
    ensures ShiftRight(x, 1) == x / 2
  {
    assert ShiftRight(x / 2, 0) == x / 2;
  }

  /** The ideal chain length of n elements in 2^k buckets, as HASH_EXPAND_BUCKETS computes it. */
  function IdealLength(n: nat, k: nat): nat {
    ShiftRight(n, k) + if BitAnd(n, Pow2(k) - 1) != 0 then 1 else 0
  }

  /** It is the ceiling of the quotient: the least length at which the buckets can hold all the elements. */
  lemma {:induction false} IdealIsCeiling(n: nat, k: nat)
    ensures IdealLength(n, k) * Pow2(k) >= n
    ensures IdealLength(n, k) > 0 ==> (IdealLength(n, k) - 1) * Pow2(k) < n
  {
    ShiftIsQuotient(n, k);
    MaskIsRemainder(n, k);
    CeilingFacts(n, Pow2(k), IdealLength(n, k));
  }

  lemma {:induction false} CeilingFacts(n: nat, p: nat, i: nat)
    requires p > 0 && i == n / p + if n % p != 0 then 1 else 0
    ensures i * p >= n && (i > 0 ==> (i - 1) * p < n)
  {
    DivMod(n, p);
    CeilingBounds(n, p, n / p, n % p);
  }

  lemma {:induction false} DivMod(n: nat, p: nat)
    requires p > 0
    ensures n == p * (n / p) + n % p && n % p < p
  {
  }

  /** The division by the ideal length is defined: it is never 0 for a table that holds something. */
  lemma {:induction false} IdealIsPositive(n: nat, k: nat)
    requires n > 0
    ensures IdealLength(n, k) > 0
  {
    ShiftIsQuotient(n, k);
    MaskIsRemainder(n, k);
    QuotientOrRemainder(n, Pow2(k));
  }

  lemma {:induction false} QuotientOrRemainder(n: nat, p: nat)
    requires n > 0 && p > 0
    ensures n / p > 0 || n % p > 0
  {
  }

  lemma {:induction false} CeilingBounds(n: nat, p: nat, q: nat, r: nat)
    requires p > 0 && n == p * q + r && r < p
    ensures (q + 1) * p >= n && (r == 0 ==> q * p >= n)
    ensures r != 0 ==> q * p < n
    ensures r == 0 && q > 0 ==> (q - 1) * p < n
  {
    assert q * p == p * q && (q + 1) * p == p * q + p && (q - 1) * p == p * q - p;
  }

  lemma {:induction false} BitAndBound(a: nat, b: nat)
    ensures BitAnd(a, b) <= b
  {
    if a != 0 && b != 0 {
      BitAndBound(a / 2, b / 2);
    }
  }

  /** The macro HASH_TO_BKT: a hash value masked for a table of n buckets. */
  function ToBucket(hashv: nat, n: nat): (b: nat)
    requires n > 0
    ensures b < n
  {
    BitAndBound(hashv, n - 1);
    BitAnd(hashv, n - 1)
  }

  /** In a table of 2^k buckets it selects the remainder of the hash value by the number of buckets. */
  lemma {:induction false} BucketIsRemainder(hashv: nat, k: nat)
    ensures ToBucket(hashv, Pow2(k)) == hashv % Pow2(k)
  {
    MaskIsRemainder(hashv, k);
  }

  // ---- well-formed links

  /** The element at place i of the list of all elements points at its neighbours. */
  ghost predicate OrderLinks(order: seq<Elem>, es: set<Elem>, i: nat)
    reads es`next, es`prev
  {
    i < |order| ==> order[i] in es && order[i].next == At(order, i + 1) && order[i].prev == At(order, i - 1)
  }

  /** The element at place i of a bucket chain points at its neighbours. Chains grow at the head, so the head is the
      last element of the sequence and the successor of a place is the place before it. */
  ghost predicate ChainLinks(chain: seq<Elem>, es: set<Elem>, i: nat)
    reads es`hhNext, es`hhPrev
  {
    i < |chain| ==> chain[i] in es && chain[i].hhNext == At(chain, i - 1) && chain[i].hhPrev == At(chain, i + 1)
  }

  ghost predicate Apart(s: seq<Elem>, i: nat, j: nat) {
    i < j < |s| ==> s[i] != s[j]
  }

  /** No element stands at two places. */
  ghost predicate Distinct(s: seq<Elem>) {
    forall i: nat, j: nat {:trigger Apart(s, i, j)} :: Apart(s, i, j)
  }

  lemma {:induction false} DistinctAppend(s: seq<Elem>, e: Elem)
    requires Distinct(s) && e !in s
    ensures Distinct(s + [e])
  {
    forall i: nat, j: nat ensures Apart(s + [e], i, j) {
      assert Apart(s, i, j);
    }
  }

  lemma {:induction false} DistinctRemove(s: seq<Elem>, p: nat)
    requires Distinct(s) && p < |s|
    ensures Distinct(RemoveAt(s, p)) && s[p] !in RemoveAt(s, p)
  {
    var r := RemoveAt(s, p);
    forall i: nat, j: nat ensures Apart(r, i, j) {
      assert Apart(s, if i < p then i else i + 1, if j < p then j else j + 1);
    }
    forall i | 0 <= i < |r| ensures r[i] != s[p] {
      assert Apart(s, if i < p then i else p, if i < p then p else i + 1);
    }
  }

  lemma {:induction false} InRemoveAt(s: seq<Elem>, p: nat, e: Elem)
    requires p < |s|
    ensures e in s && e != s[p] ==> e in RemoveAt(s, p)
  {
    if e in s && e != s[p] {
      var k :| 0 <= k < |s| && s[k] == e;
      assert RemoveAt(s, p)[if k < p then k else k - 1] == e;
    }
  }
}
