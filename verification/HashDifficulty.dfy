/** Fixed-width machine numbers. */
module Bytes {
  type byte = x: int | 0 <= x < 256
  type uint16 = x: int | 0 <= x < 0x1_0000
  type uint32 = x: int | 0 <= x < 0x1_0000_0000

  /** The number a sequence of bytes stands for, most significant byte first. */
  function BigEndian(h: seq<byte>): nat {
    if h == [] then 0 else 256 * BigEndian(h[..|h| - 1]) + h[|h| - 1]
  }
}

/** The proof-of-work test: leading zero digits of a hexadecimal digest. */
module HashDifficulty {
  import opened Bytes

  /** The output of SHA-256 (FIPS 180-4, section 6.2), which stays uninterpreted. */
  type Digest = h: seq<byte> | |h| == 32 witness seq(32, _ => 0)
  type Hash = string -> Digest

  function HexDigit(n: int): char
    requires 0 <= n < 16
  {
    "0123456789abcdef"[n]
  }

  /** hex.EncodeToString: two digits a byte, high half first. */
  function Hex(h: seq<byte>): (s: string)
    ensures |s| == 2 * |h|
  {
    if h == [] then ""
    else Hex(h[..|h| - 1]) + [HexDigit(h[|h| - 1] / 16), HexDigit(h[|h| - 1] % 16)]
  }

  /** strings.Repeat */
  function Repeat(c: char, n: nat): string {
    seq(n, _ => c)
  }

  /** ValidateHashDifficulty on the client, validateDifficulty on the server: strings.HasPrefix. */
  predicate MeetsDifficulty(hash: string, difficulty: byte) {
    Repeat('0', difficulty) <= hash
  }

  /** A solution is judged by the hash of the prefix followed by it. */
  predicate Solves(sha: Hash, prefix: string, solution: string, difficulty: byte) {
    MeetsDifficulty(Hex(sha(prefix + solution)), difficulty)
  }

  function Pow2(n: nat): nat {
    if n == 0 then 1 else 2 * Pow2(n - 1)
  }

  /** The half-bytes of a digest. */
  function Nibbles(h: seq<byte>): (ns: seq<nat>)
    ensures |ns| == 2 * |h| && forall i :: 0 <= i < |ns| ==> ns[i] < 16
  {
    if h == [] then [] else Nibbles(h[..|h| - 1]) + [h[|h| - 1] / 16, h[|h| - 1] % 16]
  }

  function Base16(ns: seq<nat>): nat {
    if ns == [] then 0 else 16 * Base16(ns[..|ns| - 1]) + ns[|ns| - 1]
  }

  lemma {:induction false} NibblesKeepValue(h: seq<byte>)
    ensures Base16(Nibbles(h)) == BigEndian(h)
  {
    if h == [] {
    } else {
      var init, b := h[..|h| - 1], h[|h| - 1];
      NibblesKeepValue(init);
      var ns := Nibbles(h);
      assert ns[..|ns| - 1] == Nibbles(init) + [b / 16];
      assert (Nibbles(init) + [b / 16])[..2 * |init|] == Nibbles(init);
    }
  }

  lemma {:induction false} HexShowsNibbles(h: seq<byte>)
    ensures forall i :: 0 <= i < 2 * |h| ==> Hex(h)[i] == HexDigit(Nibbles(h)[i])
  {
    if h == [] {
    } else {
      HexShowsNibbles(h[..|h| - 1]);
    }
  }

  lemma ZeroDigit(n: int)
    requires 0 <= n < 16
    ensures HexDigit(n) == '0' <==> n == 0
  {
  }

  lemma DigitsDiffer(a: int, b: int)
    requires 0 <= a < 16 && 0 <= b < 16 && HexDigit(a) == HexDigit(b)
    ensures a == b
  {
  }

  /** The hexadecimal form loses nothing: different digests are printed differently. */
  lemma {:induction false} HexIsInjective(g: seq<byte>, h: seq<byte>)
    requires Hex(g) == Hex(h)
    ensures g == h
  {
    if g == [] || h == [] {
    } else {
      var x, y, s := g[|g| - 1], h[|h| - 1], Hex(g);
      assert s[..|s| - 2] == Hex(g[..|g| - 1]) == Hex(h[..|h| - 1]);
      HexIsInjective(g[..|g| - 1], h[..|h| - 1]);
      assert s[|s| - 2] == HexDigit(x / 16) == HexDigit(y / 16) && s[|s| - 1] == HexDigit(x % 16) == HexDigit(y % 16);
      DigitsDiffer(x / 16, y / 16);
      DigitsDiffer(x % 16, y % 16);
    }
  }

  ghost predicate LeadingZeros(ns: seq<nat>, d: nat) {
    d <= |ns| && forall i :: 0 <= i < d ==> ns[i] == 0
  }

  lemma Pow2Four(n: nat)
    ensures Pow2(n + 4) == 16 * Pow2(n)
  {
    assert Pow2(n + 4) == 2 * Pow2(n + 3) == 4 * Pow2(n + 2) == 8 * Pow2(n + 1);
  }

  /** d leading zero half-bytes bound the value, and conversely. */
  lemma {:induction false} LeadingZerosBoundValue(ns: seq<nat>, d: nat)
    requires d <= |ns| && forall i :: 0 <= i < |ns| ==> ns[i] < 16
    ensures LeadingZeros(ns, d) <==> Base16(ns) < Pow2(4 * (|ns| - d))
  {
    if ns == [] {
    } else {
      var init := ns[..|ns| - 1];
      if d < |ns| {
        LeadingZerosBoundValue(init, d);
        Pow2Four(4 * (|init| - d));
        assert LeadingZeros(ns, d) <==> LeadingZeros(init, d);
      } else {
        LeadingZerosBoundValue(init, d - 1);
        assert LeadingZeros(ns, d) <==> LeadingZeros(init, d - 1) && ns[d - 1] == 0;
      }
    }
  }

  /** The string test is a bound on the digest as a big-endian number: difficulty d asks for the
      value to be below 2^(256 - 4d), and beyond 64 digits no digest passes. */
  lemma DifficultyIsArithmetic(h: Digest, d: byte)
    ensures MeetsDifficulty(Hex(h), d) <==> d <= 64 && BigEndian(h) < Pow2(256 - 4 * d)
  {
    var ns, s, zeros := Nibbles(h), Hex(h), Repeat('0', d);
    if d <= 64 {
      HexShowsNibbles(h);
      NibblesKeepValue(h);
      LeadingZerosBoundValue(ns, d);
      forall i | 0 <= i < d ensures s[i] == '0' <==> ns[i] == 0 {
        ZeroDigit(ns[i]);
      }
      assert zeros <= s <==> forall i :: 0 <= i < d ==> s[i] == zeros[i];
      assert forall i :: 0 <= i < d ==> zeros[i] == '0';
    }
  }

  /** What solving a challenge means: the hash of prefix and solution together, as a number. */
  lemma SolvesExactly(sha: Hash, prefix: string, solution: string, d: byte)
    ensures Solves(sha, prefix, solution, d) <==> d <= 64 && BigEndian(sha(prefix + solution)) < Pow2(256 - 4 * d)
  {
    DifficultyIsArithmetic(sha(prefix + solution), d);
  }

  /** Raising the difficulty never admits a digest that a lower one refuses. */
  lemma HarderIsStricter(h: Digest, easy: byte, hard: byte)
    requires easy <= hard && MeetsDifficulty(Hex(h), hard)
    ensures MeetsDifficulty(Hex(h), easy)
  {
  }
}
