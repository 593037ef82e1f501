/** The repeating-key keystream of the Xorcism munger, as pure functions.

    A key `key` read from cursor `k` yields the bytes key[k], key[k+1], ...,
    wrapping round to key[0] after the last byte.  Munging `data` from cursor
    `k` XORs the i-th byte of `data` with the i-th byte of that stream, and
    leaves the cursor `|data|` positions further on (modulo the key length).
 */
module XorSpec {

  /** The cursor may read a key byte: the key is non-empty and the cursor
      points inside it.  An empty key is tolerated only for empty data. */
  predicate CanRead(key: seq<bv8>, k: nat, n: nat)
    ensures CanRead(key, k, n) && n > 0 ==> |key| > 0
  {
    n == 0 || k < |key|
  }

  /** The cursor position after `n` bytes have been munged from cursor `k`. */
  function Advance(key: seq<bv8>, k: nat, n: nat): (r: nat)
    ensures k < |key| ==> r < |key|
    ensures |key| == 0 ==> r == k
  {
    if |key| == 0 then k else (k + n) % |key|
  }

  /** The next `n` key bytes read from cursor `k`, one step of the cursor at a
      time, exactly as the munging loops walk the key. */
  function Keystream(key: seq<bv8>, k: nat, n: nat): (r: seq<bv8>)
    requires CanRead(key, k, n)
    ensures |r| == n
    decreases n
  {
    if n == 0 then []
    else [key[k]] + Keystream(key, (k + 1) % |key|, n - 1)
  }

  /** Byte-wise XOR of two sequences of equal length. */
  function XorBytes(a: seq<bv8>, b: seq<bv8>): (r: seq<bv8>)
    requires |a| == |b|
    ensures |r| == |a|
  {
    seq(|a|, i requires 0 <= i < |a| => a[i] ^ b[i])
  }

  /** What munging `data` from cursor `k` produces. */
  function Munged(key: seq<bv8>, k: nat, data: seq<bv8>): (r: seq<bv8>)
    requires CanRead(key, k, |data|)
    ensures |r| == |data|
  {
    XorBytes(data, Keystream(key, k, |data|))
  }

  // ---------------------------------------------------------------------
  // Modular arithmetic on the cursor

  /** Euclidean division has a unique remainder. */
  lemma ModUnique(x: int, m: int, q: int, r: int)
    requires m > 0 && 0 <= r < m && x == q * m + r
    ensures x % m == r
  {
    var q2, r2 := x / m, x % m;
    assert x == q2 * m + r2;
    assert (q - q2) * m == r2 - r;
    // A non-zero quotient difference would make |r2 - r| at least m.
    if q - q2 >= 1 {
      assert false;
    } else if q2 - q >= 1 {
      assert false;
    }
  }

  /** Reducing a summand modulo m first does not change the sum modulo m. */
  lemma ModAddLeft(a: nat, b: nat, m: nat)
    requires m > 0
    ensures (a % m + b) % m == (a + b) % m
  {
    var q, r := a / m, a % m;
    var q2, r2 := (r + b) / m, (r + b) % m;
    assert a == q * m + r;
    assert r + b == q2 * m + r2;
    assert a + b == (q + q2) * m + r2;
    ModUnique(a + b, m, q + q2, r2);
  }

  /** Stepping the cursor once more after `n` steps is `n + 1` steps. */
  lemma AdvanceStep(key: seq<bv8>, k: nat, n: nat)
    requires k < |key|
    ensures (Advance(key, k, n) + 1) % |key| == Advance(key, k, n + 1)
  {
    ModAddLeft(k + n, 1, |key|);
  }

  /** Cursor advances compose: `m` steps then `n` steps is `m + n` steps. */
  lemma AdvanceAdd(key: seq<bv8>, k: nat, m: nat, n: nat)
    requires k < |key|
    ensures Advance(key, Advance(key, k, m), n) == Advance(key, k, m + n)
  {
    var a := (k + m) % |key|;
    assert Advance(key, k, m) == a;
    ModAddLeft(k + m, n, |key|);
    assert Advance(key, a, n) == (a + n) % |key|;
  }

  /** A cursor that walks a whole number of key lengths is back where it started. */
  lemma AdvanceFullTurns(key: seq<bv8>, k: nat, n: nat)
    requires k < |key| && n % |key| == 0
    ensures Advance(key, k, n) == k
  {
    ModAddLeft(n, k, |key|);
  }

  // ---------------------------------------------------------------------
  // Closed forms

  /** Byte i of the keystream from cursor k is key[(k + i) % |key|]. */
  lemma {:induction false} KeystreamAt(key: seq<bv8>, k: nat, n: nat, i: nat)
    requires k < |key| && i < n
    ensures Keystream(key, k, n)[i] == key[(k + i) % |key|]
    decreases i
  {
    var next := (k + 1) % |key|;
    var rest := Keystream(key, next, n - 1);
    assert Keystream(key, k, n) == [key[k]] + rest;
    CursorStep(k, i, |key|);
    if i > 0 {
      KeystreamAt(key, next, n - 1, i - 1);
    }
  }

  /** Reading position i from cursor k is reading position i - 1 from the
      cursor after k, and position 0 is k itself. */
  lemma CursorStep(k: nat, i: nat, m: nat)
    requires k < m
    ensures i == 0 ==> (k + i) % m == k
    ensures i > 0 ==> ((k + 1) % m + (i - 1)) % m == (k + i) % m
  {
    if i > 0 {
      ModAddLeft(k + 1, i - 1, m);
    }
  }

  /** Munging keeps the length and order of the data: byte i of the output
      is data[i] XOR key[(k + i) % |key|]. */
  lemma MungedAt(key: seq<bv8>, k: nat, data: seq<bv8>)
    requires k < |key|
    ensures |Munged(key, k, data)| == |data|
    ensures forall i :: 0 <= i < |data| ==>
      Munged(key, k, data)[i] == data[i] ^ key[(k + i) % |key|]
  {
    forall i | 0 <= i < |data|
      ensures Munged(key, k, data)[i] == data[i] ^ key[(k + i) % |key|]
    {
      KeystreamAt(key, k, |data|, i);
    }
  }

  /** Any sequence that satisfies the closed form is the munged data. */
  lemma MungedFromClosedForm(key: seq<bv8>, k: nat, data: seq<bv8>, out: seq<bv8>)
    requires k < |key| && |out| == |data|
    requires forall i :: 0 <= i < |data| ==> out[i] == data[i] ^ key[(k + i) % |key|]
    ensures out == Munged(key, k, data)
  {
    MungedAt(key, k, data);
  }

  // ---------------------------------------------------------------------
  // Properties of munging

  /** With an empty buffer nothing is produced and the cursor stays put. */
  lemma MungedEmpty(key: seq<bv8>, k: nat)
    ensures Munged(key, k, []) == []
    ensures k < |key| ==> Advance(key, k, 0) == k
  {
  }

  /** XOR is self-inverse: munging twice from the same cursor restores the data. */
  lemma MungedInvolution(key: seq<bv8>, k: nat, data: seq<bv8>)
    requires k < |key|
    ensures Munged(key, k, Munged(key, k, data)) == data
  {
    // Both munges XOR byte i with the same keystream byte, and
    // (d ^ s) ^ s == d; Dafny sees this from the definitions alone.
  }

  /** Chunking is transparent: munging a + b in one call is munging a and then
      munging b from the cursor the first call left behind. */
  lemma MungedConcat(key: seq<bv8>, k: nat, a: seq<bv8>, b: seq<bv8>)
    requires k < |key|
    ensures Munged(key, k, a + b)
         == Munged(key, k, a) + Munged(key, Advance(key, k, |a|), b)
  {
    var k2 := Advance(key, k, |a|);
    MungedAt(key, k, a + b);
    MungedAt(key, k, a);
    MungedAt(key, k2, b);
    var whole := Munged(key, k, a + b);
    var parts := Munged(key, k, a) + Munged(key, k2, b);
    forall i | |a| <= i < |a| + |b|
      ensures whole[i] == parts[i]
    {
      ModAddLeft(k + |a|, i - |a|, |key|);
    }
    assert forall i :: 0 <= i < |a| ==> whole[i] == parts[i];
  }

  /** Two cursors munge some data alike exactly when they read the same
      keystream over the length of the data. */
  lemma MungedSameIff(key: seq<bv8>, k1: nat, k2: nat, data: seq<bv8>)
    requires k1 < |key| && k2 < |key|
    ensures Munged(key, k1, data) == Munged(key, k2, data)
        <==> Keystream(key, k1, |data|) == Keystream(key, k2, |data|)
  {
    XorBytesCancel(data, Keystream(key, k1, |data|), Keystream(key, k2, |data|));
  }

  /** XOR with a fixed sequence is injective in the other operand. */
  lemma XorBytesCancel(d: seq<bv8>, s1: seq<bv8>, s2: seq<bv8>)
    requires |d| == |s1| == |s2|
    ensures XorBytes(d, s1) == XorBytes(d, s2) ==> s1 == s2
  {
    if XorBytes(d, s1) == XorBytes(d, s2) {
      forall i | 0 <= i < |d|
        ensures s1[i] == s2[i]
      {
        assert XorBytes(d, s1)[i] == XorBytes(d, s2)[i];
        XorInjective(d[i], s1[i], s2[i]);
      }
    }
  }

  lemma XorInjective(d: bv8, x: bv8, y: bv8)
    ensures d ^ x == d ^ y ==> x == y
  {
    // Holds by bit-vector reasoning: x == d ^ (d ^ x).
  }

  /** A second call on the same data reuses the first call's keystream only
      when the first call walked a whole number of key lengths. */
  lemma RepeatAligned(key: seq<bv8>, k: nat, data: seq<bv8>)
    requires k < |key| && |data| % |key| == 0
    ensures Munged(key, Advance(key, k, |data|), data) == Munged(key, k, data)
  {
    AdvanceFullTurns(key, k, |data|);
  }

  /** A one-byte key XORs every byte with that byte, whatever the cursor. */
  lemma SingleByteKey(b: bv8, k: nat, data: seq<bv8>)
    requires k < 1
    ensures forall i :: 0 <= i < |data| ==> Munged([b], k, data)[i] == data[i] ^ b
    ensures Advance([b], k, |data|) == 0
  {
    MungedAt([b], k, data);
  }
}
