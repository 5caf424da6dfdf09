/** What several parts need that belongs to none of them. */
module Basics {
  datatype Option<T> = None | Some(value: T)

  lemma Assoc<T>(a: seq<T>, b: seq<T>, c: seq<T>)
    ensures (a + b) + c == a + (b + c)
  {
  }

  // ---- numbers and bytes ----

  /** A number below 256 is read back from the byte it is stored in. */
  lemma {:induction false} ByteRoundTrip(n: nat)
    requires n < 256
    ensures (n as bv8) as nat == n
  {
    if n > 0 {
      ByteRoundTrip(n - 1);
      NextByte((n - 1) as bv8);
    }
  }

  lemma NextByte(b: bv8)
    requires b != 0xFF
    ensures (b + 1) as nat == b as nat + 1
    ensures (b as nat + 1) as bv8 == b + 1
  {
  }
}
