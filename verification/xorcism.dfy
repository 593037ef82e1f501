/** The Xorcism munger: a borrowed key and a cursor into it.  Each munged
    byte is XORed with the key byte under the cursor, and the cursor then
    moves one place on, wrapping round at the end of the key, so that
    successive calls continue one keystream. */
module Xorcism {
  import opened XorSpec

  class Xorcism {
    /** The key; never changed after construction. */
    const key: seq<bv8>
    /** The cursor: the index of the key byte the next munged byte uses. */
    var keyIdx: nat

    /** The cursor points into the key; an engine over an empty key keeps
        its initial cursor 0, since it can munge nothing but empty data. */
    ghost predicate Valid()
      reads this
      ensures Valid() && |key| > 0 ==> keyIdx < |key|
    {
      keyIdx < |key| || keyIdx == 0
    }

    /** A fresh munger reads the key from its first byte.  The key is not
        checked: an empty key is accepted here and only fails once a
        non-empty buffer is munged. */
    constructor (key: seq<bv8>)
      ensures this.key == key && keyIdx == 0
      ensures Valid()
    {
      this.key := key;
      keyIdx := 0;
    }

    /** A copy shares the key and continues from the same cursor; from then
        on the two cursors move independently. */
    method Clone() returns (c: Xorcism)
      requires Valid()
      ensures fresh(c) && c.Valid()
      ensures c.key == key && c.keyIdx == keyIdx
    {
      c := new Xorcism(key);
      c.keyIdx := keyIdx;
    }

    /** XORs every byte of `data` in place with the keystream from the
        cursor, and moves the cursor on by the length of `data`. */
    method MungeInPlace(data: array<bv8>)
      requires Valid()
      requires CanRead(key, keyIdx, data.Length)
      modifies this, data
      ensures Valid()
      ensures data[..] == Munged(key, old(keyIdx), old(data[..]))
      ensures keyIdx == Advance(key, old(keyIdx), data.Length)
    {
      ghost var k0, input := keyIdx, data[..];
      for i := 0 to data.Length
        invariant keyIdx == Advance(key, k0, i)
        invariant data[..i] == Munged(key, k0, input[..i])
        invariant data[i..] == input[i..]
      {
        MungedStep(key, k0, input, i);
        AdvanceStep(key, k0, i);
        data[i] := data[i] ^ key[keyIdx];
        keyIdx := (keyIdx + 1) % |key|;
        assert data[..i + 1] == data[..i] + [data[i]];
        assert data[i + 1..] == input[i + 1..] by {
          assert input[i..][1..] == input[i + 1..];
        }
      }
      assert input[..data.Length] == input && data[..data.Length] == data[..];
    }

    /** Returns `data` XORed with the keystream from the cursor, in input
        order and of the same length, and moves the cursor on by the length
        of `data`. */
    method Munge(data: seq<bv8>) returns (out: seq<bv8>)
      requires Valid()
      requires CanRead(key, keyIdx, |data|)
      modifies this
      ensures Valid()
      ensures out == Munged(key, old(keyIdx), data)
      ensures keyIdx == Advance(key, old(keyIdx), |data|)
    {
      ghost var k0 := keyIdx;
      var v: seq<bv8> := [];
      for i := 0 to |data|
        invariant keyIdx == Advance(key, k0, i)
        invariant v == Munged(key, k0, data[..i])
      {
        MungedStep(key, k0, data, i);
        AdvanceStep(key, k0, i);
        v := v + [data[i] ^ key[keyIdx]];
        keyIdx := (keyIdx + 1) % |key|;
      }
      assert data[..|data|] == data;
      out := v;
    }
  }

  /** One more byte of the munging loops: the munged prefix of length i + 1
      is the munged prefix of length i followed by byte i XORed with the key
      byte under the cursor reached after i steps. */
  lemma MungedStep(key: seq<bv8>, k0: nat, input: seq<bv8>, i: nat)
    requires k0 < |key| && i < |input|
    ensures Munged(key, k0, input[..i + 1])
         == Munged(key, k0, input[..i]) + [input[i] ^ key[Advance(key, k0, i)]]
  {
    assert input[..i + 1] == input[..i] + [input[i]];
    MungedConcat(key, k0, input[..i], [input[i]]);
    assert Keystream(key, Advance(key, k0, i), 1) == [key[Advance(key, k0, i)]];
  }

  /** Munging through a fresh engine and then through another fresh engine on
      the same key gives back the original data. */
  method RoundTrip(key: seq<bv8>, data: seq<bv8>) returns (back: seq<bv8>)
    requires CanRead(key, 0, |data|)
    ensures back == data
  {
    var encoder := new Xorcism(key);
    var cipher := encoder.Munge(data);
    var decoder := new Xorcism(key);
    back := decoder.Munge(cipher);
    if |key| > 0 {
      MungedInvolution(key, 0, data);
    }
  }

  /** From the same key and cursor, `Munge` on some data and `MungeInPlace`
      on a buffer holding the same bytes produce the same bytes and leave
      the same cursor.  The engine itself is left untouched: the two runs
      use copies of it. */
  method InPlaceAgreesWithMunge(e: Xorcism, data: seq<bv8>)
    returns (viaMunge: seq<bv8>, viaInPlace: seq<bv8>, cursorMunge: nat, cursorInPlace: nat)
    requires e.Valid() && CanRead(e.key, e.keyIdx, |data|)
    ensures viaMunge == viaInPlace == Munged(e.key, e.keyIdx, data)
    ensures cursorMunge == cursorInPlace == Advance(e.key, e.keyIdx, |data|)
  {
    var c1 := e.Clone();
    viaMunge := c1.Munge(data);
    cursorMunge := c1.keyIdx;
    var c2 := e.Clone();
    var buffer := new bv8[|data|](i requires 0 <= i < |data| => data[i]);
    assert buffer[..] == data;
    c2.MungeInPlace(buffer);
    viaInPlace := buffer[..];
    cursorInPlace := c2.keyIdx;
  }

  /** Munging a + b with one call and munging a, then b, with two calls on
      one engine give the same bytes: the cursor carries the keystream over
      the chunk boundary. */
  method ChunkedAgreesWithWhole(key: seq<bv8>, a: seq<bv8>, b: seq<bv8>)
    returns (whole: seq<bv8>, chunked: seq<bv8>)
    requires CanRead(key, 0, |a| + |b|)
    ensures whole == chunked == Munged(key, 0, a + b)
  {
    var e1 := new Xorcism(key);
    whole := e1.Munge(a + b);
    var e2 := new Xorcism(key);
    var first := e2.Munge(a);
    var second := e2.Munge(b);
    chunked := first + second;
    if |key| > 0 {
      MungedConcat(key, 0, a, b);
    }
  }

  /** The same two bytes "ab" munged twice by one engine over the key "xyz":
      the second call starts at key byte 'z', so the outputs differ. */
  method RepeatedCallDiffers() returns (first: seq<bv8>, second: seq<bv8>)
    ensures first == [0x19, 0x1b]
    ensures second == [0x1b, 0x1a]
    ensures first != second
  {
    var e := new Xorcism([0x78, 0x79, 0x7a]);
    first := e.Munge([0x61, 0x62]);
    second := e.Munge([0x61, 0x62]);
    assert Keystream([0x78, 0x79, 0x7a], 0, 2) == [0x78, 0x79];
    assert Keystream([0x78, 0x79, 0x7a], 2, 2) == [0x7a, 0x78];
  }

  /** "Hello" enciphered under the key "ice" from cursor 0, and deciphered
      again by a fresh engine on the same key. */
  method HelloUnderIce() returns (cipher: seq<bv8>, plain: seq<bv8>)
    ensures cipher == [0x21, 0x06, 0x09, 0x05, 0x0c]
    ensures plain == [0x48, 0x65, 0x6c, 0x6c, 0x6f]
  {
    var ice: seq<bv8> := [0x69, 0x63, 0x65];
    var hello: seq<bv8> := [0x48, 0x65, 0x6c, 0x6c, 0x6f];
    var encoder := new Xorcism(ice);
    cipher := encoder.Munge(hello);
    assert Keystream(ice, 0, 5) == [0x69, 0x63, 0x65, 0x69, 0x63];
    var decoder := new Xorcism(ice);
    plain := decoder.Munge(cipher);
  }
}
