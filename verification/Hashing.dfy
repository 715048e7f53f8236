// The prompt fingerprint: SHA-256 over an eight-byte big-endian length of the system
// text, the system text and the user text. SHA-256 itself is any injective function here.
module Hashing {

  type Byte = b: int | 0 <= b < 256

  function Pow256(n: nat): nat {
    if n == 0 then 1 else 256 * Pow256(n - 1)
  }

  /** int.to_bytes(width, "big"). */
  function BigEndian(n: nat, width: nat): (s: seq<Byte>)
    requires n < Pow256(width)
    ensures |s| == width
  {
    if width == 0 then [] else BigEndian(n / 256, width - 1) + [n % 256]
  }

  function FromBigEndian(s: seq<Byte>): nat {
    if s == [] then 0 else 256 * FromBigEndian(s[..|s| - 1]) + s[|s| - 1]
  }

  lemma {:induction false} BigEndianRoundTrip(n: nat, width: nat)
    requires n < Pow256(width)
    ensures FromBigEndian(BigEndian(n, width)) == n
  {
    if width > 0 {
      BigEndianRoundTrip(n / 256, width - 1);
      var s := BigEndian(n, width);
      assert s[..|s| - 1] == BigEndian(n / 256, width - 1);
    }
  }

  /** The bytes that are hashed; longer system texts do not fit the length field. */
  function Encode(sys: seq<Byte>, usr: seq<Byte>): seq<Byte>
    requires |sys| < Pow256(8)
  {
    BigEndian(|sys|, 8) + sys + usr
  }

  /** Recovers both texts from the encoded bytes. */
  lemma DecodeEncode(sys: seq<Byte>, usr: seq<Byte>)
    requires |sys| < Pow256(8)
    ensures var e := Encode(sys, usr);
            && |e| >= 8 + |sys|
            && FromBigEndian(e[..8]) == |sys|
            && e[8..8 + |sys|] == sys
            && e[8 + |sys|..] == usr
  {
    BigEndianRoundTrip(|sys|, 8);
    var e := Encode(sys, usr);
    assert e[..8] == BigEndian(|sys|, 8);
  }

  ghost predicate Injective(sha: seq<Byte> -> string) {
    forall x, y :: sha(x) == sha(y) ==> x == y
  }

  function CompositeHash(sha: seq<Byte> -> string, sys: seq<Byte>, usr: seq<Byte>): string
    requires |sys| < Pow256(8)
  {
    sha(Encode(sys, usr))
  }

  /** Two prompts share a cache key only if they are the same prompt with the same split. */
  lemma CompositeHashInjective(sha: seq<Byte> -> string, s1: seq<Byte>, u1: seq<Byte>, s2: seq<Byte>, u2: seq<Byte>)
    requires Injective(sha)
    requires |s1| < Pow256(8) && |s2| < Pow256(8)
    requires CompositeHash(sha, s1, u1) == CompositeHash(sha, s2, u2)
    ensures s1 == s2 && u1 == u2
  {
    DecodeEncode(s1, u1);
    DecodeEncode(s2, u2);
  }

  /** Joining with a NUL byte instead would confuse any text that moves a NUL across the split. */
  lemma SeparatorIsAmbiguous(t: seq<Byte>)
    ensures var nul: seq<Byte> := [0];
            (t + nul) + nul + t == t + nul + (nul + t) && (t + nul, t) != (t, nul + t)
  {
    var nul: seq<Byte> := [0];
    assert |t + nul| != |t|;
  }
}
