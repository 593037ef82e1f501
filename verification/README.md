# Xorcism: a verified model of a repeating-key XOR munger

`Xorcism` is a small Rust object that XORs data with a key. The key repeats
as often as it needs to. The object holds a borrowed key and a cursor
(`key_idx`) into that key. The constructor sets the cursor to 0. Each byte
munged uses the key byte under the cursor and then moves the cursor one
place on, wrapping modulo the key length. Successive calls on one engine
therefore continue a single keystream. There are two transforms:

- `munge_in_place` overwrites a mutable byte buffer;
- `munge` builds a new byte sequence from any byte sequence.

The model has two modules:

- `XorSpec` (`keystream.dfy`) holds the pure specification:
  - `Keystream(key, k, n)` is the next `n` key bytes from cursor `k`. It walks the key one step at a time, as the loops do.
  - `Munged(key, k, data)` is `data` XORed with that keystream.
  - `Advance(key, k, n)` is the cursor after `n` bytes.
  - The module's lemmas give the closed form. Byte `i` of the output is `data[i] ^ key[(k + i) % |key|]`.
  - They also prove the self-inverse round trip, the transparency of chunk boundaries, and exactly when two cursors munge alike.
- `Xorcism` (`xorcism.dfy`) is the object itself:
  - a class with a constant `key: seq<bv8>` and a mutable cursor `keyIdx: nat`;
  - `MungeInPlace` on an `array<bv8>` and `Munge` on a `seq<bv8>`, each a loop that updates the cursor field;
  - `Clone`;
  - client methods that use only those contracts to prove the source's promises about fresh engines and repeated calls.

The empty key. The constructor takes any key, including an empty one, just
as `new` does. The object invariant `Valid()` says that the cursor lies
inside the key, or is 0 when the key is empty. Both transforms require
`CanRead(key, keyIdx, n)`: the data is empty, or the cursor points at a key
byte. Outside that condition the source indexes `key[key_idx]` out of bounds
and panics. An engine over an empty key can still munge empty data, as in
the source. `new` never rejects an empty key, and neither does the model.

`munge` returns a lazy iterator in Rust. It is modelled as returning the
finished sequence, because the code collects every byte into a `Vec`
before returning that `Vec`'s iterator.

The cursor is a `usize` in the source. It never overflows: it stays below
the key length, so `key_idx + 1` fits. The model therefore uses `nat`.

## Model

| member | source | states |
|---|---|---|
| `Xorcism.Xorcism.constructor` | src/lib.rs:18-20 | the new engine holds exactly the given key, its cursor is 0, and it satisfies the object invariant; the key is not checked |
| `Xorcism.Xorcism.Clone` | src/lib.rs:5-12 | the copy is a fresh object with the same key and the same cursor |
| `Xorcism.Xorcism.MungeInPlace` | src/lib.rs:26-31 | the buffer afterwards equals the old buffer munged from the entry cursor (same length, byte i XORed with keystream byte i); the cursor ends at the entry cursor advanced by the buffer length; the invariant is kept |
| `Xorcism.Xorcism.Munge` | src/lib.rs:40-47 | the result is the input munged from the entry cursor; the cursor ends at the entry cursor advanced by the input length; the invariant is kept |
| `Xorcism.MungedStep` | src/lib.rs:27-45 | one iteration of either loop (`munge_in_place`, lines 28-29; `munge`, lines 43-44) extends the munged prefix by the next byte XORed with the key byte under the cursor reached so far |
| `Xorcism.Xorcism.Valid` | src/lib.rs:11 | the cursor invariant: on a non-empty key the cursor is a valid index into the key; on an empty key it stays at its initial 0 |
| `XorSpec.CanRead` | src/lib.rs:28 | the condition under which `key[key_idx]` does not panic: data is empty, or the key is non-empty and the cursor lies inside it |
| `XorSpec.Munged` | src/lib.rs:28 | the result of both transforms: the data XORed byte by byte with the keystream from the cursor, of the data's length |
| `XorSpec.Advance` | src/lib.rs:29 | a cursor inside the key stays inside the key after any number of steps |
| `XorSpec.AdvanceStep` | src/lib.rs:29 | the cursor update `(k + 1) % len` applied after n steps gives the cursor after n + 1 steps |
| `XorSpec.AdvanceAdd` | src/lib.rs:44 | advancing by m and then by n is advancing by m + n, so consecutive calls continue one cursor |
| `XorSpec.AdvanceFullTurns` | src/lib.rs:44 | after a whole number of key lengths the cursor is back where it started |
| `XorSpec.Keystream` | src/lib.rs:28-29 | reading n key bytes from the cursor yields exactly n bytes |
| `XorSpec.KeystreamAt` | src/lib.rs:28-29 | keystream byte i from cursor k is `key[(k + i) % len]` |
| `XorSpec.MungedAt` | src/lib.rs:41-46 | the munged output has the input's length and, in input order, byte i is `data[i] ^ key[(k + i) % len]` |
| `XorSpec.MungedFromClosedForm` | src/lib.rs:41-46 | any sequence of the input's length that satisfies the closed form is the munged output (the closed form determines the result) |
| `XorSpec.MungedEmpty` | src/lib.rs:27-30 | munging an empty buffer yields nothing and leaves the cursor where it was |
| `XorSpec.MungedInvolution` | src/lib.rs:28 | munging twice from the same cursor gives back the original data (XOR is self-inverse) |
| `XorSpec.MungedConcat` | src/lib.rs:27-30 | munging a + b equals munging a and then munging b from the cursor the first part left |
| `XorSpec.MungedSameIff` | src/lib.rs:24-25 | two cursors munge some data to the same bytes if and only if they read the same keystream over its length |
| `XorSpec.RepeatAligned` | src/lib.rs:34-35 | when the data length is a multiple of the key length, a repeated call uses the same keystream and gives the same output |
| `XorSpec.SingleByteKey` | src/lib.rs:28-29 | with a one-byte key every byte is XORed with that byte and the cursor always ends at 0 |
| `Xorcism.RoundTrip` | src/lib.rs:18-47 | munging with a fresh engine and then with another fresh engine on the same key returns the original data |
| `Xorcism.InPlaceAgreesWithMunge` | src/lib.rs:26-47 | from the same key and cursor, `Munge` and `MungeInPlace` on a copy of the data produce the same bytes and the same final cursor |
| `Xorcism.ChunkedAgreesWithWhole` | src/lib.rs:40-47 | munging a + b in one call equals munging a and then b with two calls on one engine |
| `Xorcism.RepeatedCallDiffers` | src/lib.rs:34-35 | with key "xyz", munging "ab" twice on one engine gives [0x19, 0x1b] and then [0x1b, 0x1a]: the second call differs |
| `Xorcism.HelloUnderIce` | src/lib.rs:40-47 | "Hello" under key "ice" from cursor 0 gives [0x21, 0x06, 0x09, 0x05, 0x0c], and a fresh engine turns that back into "Hello" |

## Left out

- The Rust generics for the key (`AsRef<[u8]>`) and the data (`IntoIterator<Item = impl Borrow<u8>>`) are left out. Keys and data are `seq<bv8>`, and the in-place buffer is an `array<bv8>`.
- Lifetimes and borrowing of the key are left out. The key is a constant field, because no method changes it.
- Munge: the result is a finished sequence, not a lazy iterator. The code builds the whole `Vec` before it returns, so no observable order of effects is lost.
- The modelled file `src/lib.rs` defines no stream adapters, so the model has none.
- The panic on an empty key with non-empty data is a precondition (`CanRead`), not a modelled error result. In the source it is an out-of-bounds panic, not a value a caller can handle.
- Concurrent use of one engine is not modelled. The source takes `&mut self`, so calls are sequential.
- Cryptographic strength is not claimed.
