/** The replay fingerprint: FNV-1a over raw bytes, 64 bits wide. */
module ReplayHash {
  import opened Basics
  import opened Messages

  type Word = bv64

  const OFFSET_BASIS: Word := 14695981039346656037

  /** One byte goes in: combined with the state, then multiplied by the prime 1099511628211. */
  function Blend(s: Word, b: bv8): Word { s ^ (b as Word) }
  function TimesPrime(s: Word): Word { s * 1099511628211 }
  function UntimesPrime(s: Word): Word { s * 0xCE965057AFF6957B }

  function Step(s: Word, b: bv8): Word { TimesPrime(Blend(s, b)) }

  /** The digest state after a run of bytes. */
  function Digest(s: Word, data: seq<bv8>): Word {
    if data == [] then s else Step(Digest(s, data[..|data| - 1]), data[|data| - 1])
  }

  class Hash {
    var state: Word

    constructor ()
      ensures state == OFFSET_BASIS
    {
      state := OFFSET_BASIS;
    }

    method MixBytes(data: seq<bv8>)
      modifies this
      ensures state == Digest(old(state), data)
    {
      var i := 0;
      while i < |data|
        invariant 0 <= i <= |data| && state == Digest(old(state), data[..i])
      {
        assert data[..i + 1][..i] == data[..i];
        state := Blend(state, data[i]);
        state := TimesPrime(state);
        i := i + 1;
      }
      assert data[..i] == data;
    }

    /** A market number goes in as its two bytes, low one first. */
    method MixU16(v: u16)
      modifies this
      ensures state == Digest(old(state), BytesOf(v))
    {
      MixBytes(BytesOf(v));
    }
  }

  function BytesOf(v: u16): seq<bv8> { [(v % 256) as bv8, (v / 256) as bv8] }

  /** The published digests of nothing, of the letter a, and of the word foobar. */
  lemma PublishedDigests()
    ensures Digest(OFFSET_BASIS, []) == 0xCBF29CE484222325
    ensures Digest(OFFSET_BASIS, [0x61]) == 0xAF63DC4C8601EC8C
    ensures Digest(OFFSET_BASIS, [0x66, 0x6F, 0x6F, 0x62, 0x61, 0x72]) == 0x85944171F73967E8
  {
    NextDigest([], 0x61, [0x61], 0xAF63DC4C8601EC8C);
    NextDigest([], 0x66, [0x66], 0xAF63DB4C8601EAD9);
    NextDigest([0x66], 0x6F, [0x66, 0x6F], 0x08985907B541D342);
    NextDigest([0x66, 0x6F], 0x6F, [0x66, 0x6F, 0x6F], 0xDCB27518FED9D577);
    NextDigest([0x66, 0x6F, 0x6F], 0x62, [0x66, 0x6F, 0x6F, 0x62], 0xDD120E790C2512AF);
    NextDigest([0x66, 0x6F, 0x6F, 0x62], 0x61, [0x66, 0x6F, 0x6F, 0x62, 0x61], 0xCAC165AFA2FEF40A);
    NextDigest([0x66, 0x6F, 0x6F, 0x62, 0x61], 0x72, [0x66, 0x6F, 0x6F, 0x62, 0x61, 0x72], 0x85944171F73967E8);
  }

  lemma NextDigest(before: seq<bv8>, x: bv8, data: seq<bv8>, t: Word)
    requires data == before + [x] && Step(Digest(OFFSET_BASIS, before), x) == t
    ensures Digest(OFFSET_BASIS, data) == t
  {
    OneStep(OFFSET_BASIS, before, x);
  }

  // ---- each step can be undone ----

  lemma PrimeUndone(s: Word)
    ensures UntimesPrime(TimesPrime(s)) == s && TimesPrime(UntimesPrime(s)) == s
  {
    assert UntimesPrime(s * 1099511628211) == s && TimesPrime(s * 0xCE965057AFF6957B) == s;
  }

  /** The byte that took one state to the next. */
  function ByteBetween(s: Word, t: Word): bv8 { ((s ^ t) & 0xFF) as bv8 }

  lemma BlendUndone(s: Word, b: bv8)
    ensures Blend(Blend(s, b), b) == s && ByteBetween(s, Blend(s, b)) == b
  {
    assert Blend(s ^ (b as Word), b) == s;
    assert ByteBetween(s, s ^ (b as Word)) == b;
  }

  /** Knowing the byte, the state before it is known: a step is a bijection of the states. */
  lemma StepInvertible(s: Word, b: bv8)
    ensures Blend(UntimesPrime(Step(s, b)), b) == s && Step(Blend(UntimesPrime(s), b), b) == s
  {
    PrimeUndone(Blend(s, b));
    BlendUndone(s, b);
    BlendUndone(UntimesPrime(s), b);
    PrimeUndone(s);
  }

  /** Knowing the state before, the byte is known. */
  lemma StepInjective(s: Word, s': Word, b: bv8, b': bv8)
    requires Step(s, b) == Step(s', b')
    ensures s == s' <==> b == b'
  {
    PrimeUndone(Blend(s, b));
    PrimeUndone(Blend(s', b'));
    BlendUndone(s, b);
    BlendUndone(s', b');
  }

  /** Mixing two runs of bytes one after the other is mixing them joined. */
  lemma {:induction false} DigestConcat(s: Word, a: seq<bv8>, b: seq<bv8>)
    ensures Digest(s, a + b) == Digest(Digest(s, a), b)
  {
    if b == [] {
      assert a + b == a;
    } else {
      var m := |b| - 1;
      DigestConcat(s, a, b[..m]);
      assert (a + b)[..|a + b| - 1] == a + b[..m];
    }
  }

  /** Different states stay different under the same bytes. */
  lemma {:induction false} DigestKeepsDifference(s: Word, s': Word, data: seq<bv8>)
    requires s != s'
    ensures Digest(s, data) != Digest(s', data)
  {
    if data != [] {
      var m := |data| - 1;
      DigestKeepsDifference(s, s', data[..m]);
      if Digest(s, data) == Digest(s', data) {
        StepInjective(Digest(s, data[..m]), Digest(s', data[..m]), data[m], data[m]);
      }
    }
  }

  /** Two inputs of the same length that differ in exactly one byte never share a digest. */
  lemma OneByteShows(s: Word, a: seq<bv8>, b: seq<bv8>, k: nat)
    requires |a| == |b| && k < |a| && a[k] != b[k]
    requires forall i :: 0 <= i < |a| && i != k ==> a[i] == b[i]
    ensures Digest(s, a) != Digest(s, b)
  {
    var before, after := a[..k], a[k + 1..];
    assert a == before + [a[k]] + after && b == before + [b[k]] + after;
    var t := Digest(s, before);
    OneStep(s, before, a[k]);
    OneStep(s, before, b[k]);
    if Step(t, a[k]) == Step(t, b[k]) {
      StepInjective(t, t, a[k], b[k]);
    }
    DigestKeepsDifference(Step(t, a[k]), Step(t, b[k]), after);
    DigestConcat(s, before + [a[k]], after);
    DigestConcat(s, before + [b[k]], after);
  }

  lemma OneStep(s: Word, before: seq<bv8>, x: bv8)
    ensures Digest(s, before + [x]) == Step(Digest(s, before), x)
  {
    assert (before + [x])[..|before|] == before;
  }

  /** A market number can be read back from its bytes, low one first, so two numbers never put the same bytes in. */
  lemma BytesIdentify(v: u16, w: u16)
    ensures BytesOf(v)[0] as int + 256 * BytesOf(v)[1] as int == v
    ensures BytesOf(v) == BytesOf(w) ==> v == w
  {
    ByteParts(v);
    ByteParts(w);
  }

  lemma ByteParts(v: u16)
    ensures |BytesOf(v)| == 2 && BytesOf(v)[0] as int == v % 256 && BytesOf(v)[1] as int == v / 256
  {
    ByteRoundTrip(v % 256);
    ByteRoundTrip(v / 256);
  }
}
