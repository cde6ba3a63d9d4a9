/** Rejection sampling and the Fisher-Yates shuffle, over the bytes the random source delivers. */
module Shuffle {
  import opened Prelude

  /** A random draw from a finite stretch of the source: Dry while it is still rejecting. */
  datatype Draw<T> = Drawn(value: T, rest: seq<byte>) | Dry

  const U32_MAX: nat := 0xFFFF_FFFF

  // ----- rejection limits -----------------------------------------------------

  function ByteLimit(n: nat): nat
    requires 0 < n <= 256
  {
    256 - 256 % n
  }

  function WordLimit(n: nat): nat
    requires 0 < n <= U32_MAX
  {
    U32_MAX - U32_MAX % n
  }

  /** The samples below `limit` that reduce to `r`. */
  function Preimage(limit: nat, n: nat, r: nat): set<nat>
    requires n > 0
  {
    set v: nat | v < limit && v % n == r
  }

  lemma {:induction false} PreimageSize(q: nat, n: nat, r: nat)
    requires r < n
    ensures |Preimage(q * n, n, r)| == q
  {
    if q == 0 {
      assert Preimage(0, n, r) == {};
    } else {
      var below := Preimage((q - 1) * n, n, r);
      var v := (q - 1) * n + r;
      PreimageSize(q - 1, n, r);
      OneMoreBlock(q - 1, n, r);
      assert q * n == (q - 1) * n + n;
      assert Preimage(q * n, n, r) == below + {v};
      assert v !in below;
    }
  }

  /** In the q-th block of n samples exactly one reduces to r. */
  lemma {:induction false} OneMoreBlock(q: nat, n: nat, r: nat)
    requires r < n
    ensures (q * n + r) % n == r
    ensures forall v :: q * n <= v < q * n + n && v % n == r ==> v == q * n + r
  {
    ModOfSum(q, n, r);
    forall v | q * n <= v < q * n + n && v % n == r ensures v == q * n + r {
      ModOfSum(q, n, v - q * n);
    }
  }

  lemma {:induction false} ModOfSum(q: nat, n: nat, k: nat)
    requires k < n
    ensures (q * n + k) % n == k
  {
    var x := q * n + k;
    assert x == (x / n) * n + x % n;
    assert (x / n) * n - q * n == (x / n - q) * n;
    SmallMultiple(x / n - q, n);
  }

  lemma SmallMultiple(d: int, n: int)
    requires n > 0 && -n < d * n < n
    ensures d == 0
  {
    assert d >= 1 ==> d * n >= n;
    assert d <= -1 ==> d * n <= -n;
  }

  /** Every residue has the same number of accepted samples, for bytes and for u32 words. */
  lemma {:induction false} UnbiasedByte(n: nat, r: nat)
    requires 0 < n <= 256 && r < n
    ensures |Preimage(ByteLimit(n), n, r)| == 256 / n
  {
    assert ByteLimit(n) == (256 / n) * n;
    PreimageSize(256 / n, n, r);
  }

  lemma {:induction false} UnbiasedWord(n: nat, r: nat)
    requires 0 < n <= U32_MAX && r < n
    ensures |Preimage(WordLimit(n), n, r)| == U32_MAX / n
  {
    assert WordLimit(n) == (U32_MAX / n) * n;
    PreimageSize(U32_MAX / n, n, r);
  }

  // ----- draws ----------------------------------------------------------------

  function Word(tape: seq<byte>): (v: nat)
    requires |tape| >= 4
    ensures v <= U32_MAX
  {
    var b0: nat, b1: nat, b2: nat, b3: nat := tape[0], tape[1], tape[2], tape[3];
    b0 + 0x100 * (b1 + 0x100 * (b2 + 0x100 * b3))
  }

  /** First byte below the limit, reduced; the bytes before it are discarded. */
  function PickIndex(tape: seq<byte>, n: nat): (d: Draw<nat>)
    requires 0 < n <= 256
    ensures d.Drawn? ==> d.value < n
  {
    if tape == [] then Dry
    else if tape[0] < ByteLimit(n) then Drawn(tape[0] % n, tape[1..])
    else PickIndex(tape[1..], n)
  }

  /** First little-endian word below the limit, reduced. */
  function RandomIndex(tape: seq<byte>, n: nat): (d: Draw<nat>)
    requires 0 < n <= U32_MAX
    ensures d.Drawn? ==> d.value < n
    decreases |tape|
  {
    if |tape| < 4 then Dry
    else if Word(tape) < WordLimit(n) then Drawn(Word(tape) % n, tape[4..])
    else RandomIndex(tape[4..], n)
  }

  // ----- what is drawn --------------------------------------------------------

  /** A byte in the biased top of the range is skipped, whatever follows; any other is reduced. */
  lemma PickFirst(b: byte, rest: seq<byte>, n: nat)
    requires 0 < n <= 256
    ensures PickIndex([b] + rest, n) == if b < 256 - 256 % n then Drawn(b % n, rest) else PickIndex(rest, n)
  {
    assert ([b] + rest)[1..] == rest;
  }

  /** The bytes that draw the index. */
  function DrawingBytes(n: nat, r: nat): set<byte>
    requires 0 < n <= 256
  {
    set b: byte | 0 <= b < 256 && PickIndex([b], n) == Drawn(r, [])
  }

  /**
   * Every index is drawn by the same number of bytes, 256 / n. A byte that draws does so whatever follows,
   * and every other byte is skipped.
   */
  lemma {:induction false} PickIsUnbiased(n: nat, r: nat)
    requires 0 < n <= 256 && r < n
    ensures |DrawingBytes(n, r)| == 256 / n
    ensures forall b: byte, rest :: b in DrawingBytes(n, r) ==> PickIndex([b] + rest, n) == Drawn(r, rest)
    ensures forall b: byte, rest :: PickIndex([b], n).Dry? ==> PickIndex([b] + rest, n) == PickIndex(rest, n)
  {
    forall b: byte ensures b in DrawingBytes(n, r) <==> b in Preimage(ByteLimit(n), n, r) {
      PickFirst(b, [], n);
      assert [b] + [] == [b];
    }
    forall b: byte, rest ensures b in DrawingBytes(n, r) ==> PickIndex([b] + rest, n) == Drawn(r, rest) {
      DrawsOrSkips(b, rest, n);
    }
    forall b: byte, rest ensures PickIndex([b], n).Dry? ==> PickIndex([b] + rest, n) == PickIndex(rest, n) {
      DrawsOrSkips(b, rest, n);
    }
    UnbiasedByte(n, r);
    SameBytes(DrawingBytes(n, r), Preimage(ByteLimit(n), n, r));
  }

  lemma DrawsOrSkips(b: byte, rest: seq<byte>, n: nat)
    requires 0 < n <= 256
    ensures PickIndex([b] + rest, n)
         == if PickIndex([b], n).Drawn? then Drawn(PickIndex([b], n).value, rest) else PickIndex(rest, n)
  {
    PickFirst(b, rest, n);
    PickFirst(b, [], n);
    assert [b] + [] == [b];
  }

  lemma NoneLeft(bytes: set<byte>, values: set<nat>)
    requires forall b: byte :: b in bytes <==> b in values
    requires forall v :: v in values ==> v < 256
    ensures bytes == {} ==> values == {}
  {
    forall v | v in values ensures bytes != {} {
      var b: byte := v;
      assert b in bytes;
    }
  }

  lemma {:induction false} SameBytes(bytes: set<byte>, values: set<nat>)
    requires forall b: byte :: b in bytes <==> b in values
    requires forall v :: v in values ==> v < 256
    ensures |bytes| == |values|
    decreases |bytes|
  {
    if bytes == {} {
      assert values == {} by { NoneLeft(bytes, values); }
    } else {
      var b :| b in bytes;
      SameBytes(bytes - {b}, values - {b as nat});
    }
  }

  /** A word in the biased top of the range is skipped, whatever follows; any other is reduced. */
  lemma IndexFirst(b0: byte, b1: byte, b2: byte, b3: byte, rest: seq<byte>, n: nat)
    requires 0 < n <= U32_MAX
    ensures var v := b0 + 256 * b1 + 65536 * b2 + 16777216 * b3;
            RandomIndex([b0, b1, b2, b3] + rest, n)
            == if v < U32_MAX - U32_MAX % n then Drawn(v % n, rest) else RandomIndex(rest, n)
  {
    var tape := [b0, b1, b2, b3] + rest;
    assert tape[4..] == rest;
    assert Word(tape) == b0 + 256 * b1 + 65536 * b2 + 16777216 * b3;
  }

  /** The little-endian words that draw the index. */
  ghost function DrawingWords(n: nat, r: nat): set<nat>
    requires 0 < n <= U32_MAX
  {
    set v: nat | v <= U32_MAX && RandomIndex(WordBytes(v), n) == Drawn(r, [])
  }

  /** Likewise every index of a shuffle step is drawn by the same number of words. */
  lemma {:induction false} IndexIsUnbiased(n: nat, r: nat)
    requires 0 < n <= U32_MAX && r < n
    ensures |DrawingWords(n, r)| == U32_MAX / n
    ensures forall v: nat, rest :: v in DrawingWords(n, r) ==> RandomIndex(WordBytes(v) + rest, n) == Drawn(r, rest)
    ensures forall v: nat, rest :: v <= U32_MAX && RandomIndex(WordBytes(v), n).Dry? ==>
              RandomIndex(WordBytes(v) + rest, n) == RandomIndex(rest, n)
  {
    forall v: nat | v <= U32_MAX ensures v in DrawingWords(n, r) <==> v in Preimage(WordLimit(n), n, r) {
      WordFirst(v, [], n);
      assert WordBytes(v) + [] == WordBytes(v);
    }
    forall v: nat, rest | v in DrawingWords(n, r) ensures RandomIndex(WordBytes(v) + rest, n) == Drawn(r, rest) {
      WordDrawsOrSkips(v, rest, n);
    }
    forall v: nat, rest | v <= U32_MAX && RandomIndex(WordBytes(v), n).Dry?
      ensures RandomIndex(WordBytes(v) + rest, n) == RandomIndex(rest, n)
    {
      WordDrawsOrSkips(v, rest, n);
    }
    UnbiasedWord(n, r);
    assert DrawingWords(n, r) == Preimage(WordLimit(n), n, r);
  }

  lemma WordDrawsOrSkips(v: nat, rest: seq<byte>, n: nat)
    requires 0 < n <= U32_MAX && v <= U32_MAX
    ensures RandomIndex(WordBytes(v) + rest, n)
         == if RandomIndex(WordBytes(v), n).Drawn? then Drawn(RandomIndex(WordBytes(v), n).value, rest)
            else RandomIndex(rest, n)
  {
    WordFirst(v, rest, n);
    WordFirst(v, [], n);
    assert WordBytes(v) + [] == WordBytes(v);
  }

  lemma WordFirst(v: nat, rest: seq<byte>, n: nat)
    requires 0 < n <= U32_MAX && v <= U32_MAX
    ensures RandomIndex(WordBytes(v) + rest, n)
         == if v < U32_MAX - U32_MAX % n then Drawn(v % n, rest) else RandomIndex(rest, n)
  {
    var w := WordBytes(v);
    IndexFirst(w[0], w[1], w[2], w[3], rest, n);
    assert w == [w[0], w[1], w[2], w[3]];
  }

  // ----- the shuffle as a function of its choices -----------------------------

  function Swap<T>(s: seq<T>, i: nat, j: nat): (t: seq<T>)
    requires i < |s| && j < |s|
    ensures |t| == |s|
  {
    s[i := s[j]][j := s[i]]
  }

  /** One swap choice per position: the step at position k picks an index in 0..=k. */
  predicate ValidChoices(choices: seq<nat>) {
    forall k :: 0 <= k < |choices| ==> choices[k] <= k
  }

  /** The shuffle steps at positions |choices| - 1 down to 1. */
  function ShuffleBy<T>(s: seq<T>, choices: seq<nat>): (t: seq<T>)
    requires ValidChoices(choices) && |choices| <= |s|
    ensures |t| == |s|
    decreases |choices|
  {
    if choices == [] then s
    else
      var i := |choices| - 1;
      ShuffleBy(Swap(s, i, choices[i]), choices[..i])
  }

  lemma {:induction false} ShuffleKeepsAbove<T>(s: seq<T>, choices: seq<nat>, k: nat)
    requires ValidChoices(choices) && |choices| <= k < |s|
    ensures ShuffleBy(s, choices)[k] == s[k]
    decreases |choices|
  {
    if choices != [] {
      var i := |choices| - 1;
      ShuffleKeepsAbove(Swap(s, i, choices[i]), choices[..i], k);
    }
  }

  lemma {:induction false} ShufflePermutes<T>(s: seq<T>, choices: seq<nat>)
    requires ValidChoices(choices) && |choices| <= |s|
    ensures multiset(ShuffleBy(s, choices)) == multiset(s)
    decreases |choices|
  {
    if choices != [] {
      var i := |choices| - 1;
      ShufflePermutes(Swap(s, i, choices[i]), choices[..i]);
      SwapPermutes(s, i, choices[i]);
    }
  }

  lemma SwapPermutes<T>(s: seq<T>, i: nat, j: nat)
    requires i < |s| && j < |s|
    ensures multiset(Swap(s, i, j)) == multiset(s)
  {
  }

  ghost predicate Distinct<T>(s: seq<T>) {
    forall i, j {:trigger s[i], s[j]} :: 0 <= i < j < |s| ==> s[i] != s[j]
  }

  lemma SwapDistinct<T>(s: seq<T>, i: nat, j: nat)
    requires i < |s| && j < |s| && Distinct(s)
    ensures Distinct(Swap(s, i, j))
  {
    var t := Swap(s, i, j);
    forall a, b | 0 <= a < b < |t| ensures t[a] != t[b] {
      var a' := if a == i then j else if a == j then i else a;
      var b' := if b == i then j else if b == j then i else b;
      assert t[a] == s[a'] && t[b] == s[b'] && a' != b';
    }
  }

  /** The element the last position ends up with. */
  lemma {:induction false} ShuffleLast<T>(s: seq<T>, choices: seq<nat>)
    requires ValidChoices(choices) && 0 < |choices| <= |s|
    ensures ShuffleBy(s, choices)[|choices| - 1] == s[choices[|choices| - 1]]
  {
    var i := |choices| - 1;
    ShuffleKeepsAbove(Swap(s, i, choices[i]), choices[..i], i);
  }

  /** Different choices give different orders of distinct elements. */
  lemma {:induction false} ShuffleInjective<T>(s: seq<T>, c: seq<nat>, d: seq<nat>)
    requires Distinct(s) && |c| == |d| <= |s|
    requires ValidChoices(c) && ValidChoices(d)
    requires ShuffleBy(s, c) == ShuffleBy(s, d)
    ensures c == d
    decreases |c|
  {
    if c != [] {
      var i := |c| - 1;
      ShuffleLast(s, c);
      ShuffleLast(s, d);
      SameIndex(s, c[i], d[i]);
      SwapDistinct(s, i, c[i]);
      ShuffleInjective(Swap(s, i, c[i]), c[..i], d[..i]);
      SameBySnoc(c, d, i);
    }
  }

  lemma SameBySnoc(c: seq<nat>, d: seq<nat>, i: nat)
    requires |c| == |d| == i + 1 && c[..i] == d[..i] && c[i] == d[i]
    ensures c == d
  {
    assert c == c[..i] + [c[i]];
    assert d == d[..i] + [d[i]];
  }

  lemma SameIndex<T>(s: seq<T>, i: nat, j: nat)
    requires Distinct(s) && i < |s| && j < |s| && s[i] == s[j]
    ensures i == j
  {
  }

  /** Every order with the same elements is reached by some choices; `t` need not be distinct. */
  lemma {:induction false} ShuffleOnto<T>(s: seq<T>, t: seq<T>, n: nat) returns (choices: seq<nat>)
    requires n <= |s| == |t| && multiset(s) == multiset(t)
    requires s[n..] == t[n..]
    ensures ValidChoices(choices) && |choices| == n && ShuffleBy(s, choices) == t
    decreases n
  {
    if n == 0 {
      choices := [];
    } else {
      var j := ElementBelow(s, t, n);
      var s' := Swap(s, n - 1, j);
      SwapPermutes(s, n - 1, j);
      assert s'[n - 1..] == [s'[n - 1]] + s[n..] && t[n - 1..] == [t[n - 1]] + t[n..];
      var below := ShuffleOnto(s', t, n - 1);
      choices := below + [j];
      assert choices[..n - 1] == below;
    }
  }

  lemma {:induction false} ElementBelow<T>(s: seq<T>, t: seq<T>, n: nat) returns (j: nat)
    requires 0 < n <= |s| == |t| && multiset(s) == multiset(t) && s[n..] == t[n..]
    ensures j < n && s[j] == t[n - 1]
  {
    assert s == s[..n] + s[n..] && t == t[..n] + t[n..];
    assert multiset(s[..n]) == multiset(s) - multiset(s[n..]);
    assert multiset(t[..n]) == multiset(t) - multiset(t[n..]);
    var x := t[..n][n - 1];
    assert x in multiset(t[..n]);
    assert x in s[..n];
    j :| 0 <= j < |s[..n]| && s[..n][j] == x;
  }

  // ----- the shuffle over the random source -----------------------------------

  /** The steps at positions n - 1 down to 1, each with a fresh random index. */
  function ShuffleDraw<T>(tape: seq<byte>, s: seq<T>, n: nat): (d: Draw<seq<T>>)
    requires n <= |s| <= U32_MAX
    decreases n
  {
    if n <= 1 then Drawn(s, tape)
    else
      var j := RandomIndex(tape, n);
      if j.Dry? then Dry else ShuffleDraw(j.rest, Swap(s, n - 1, j.value), n - 1)
  }

  /** What the source delivers is always some vector of choices. */
  lemma {:induction false} DrawIsChoices<T>(tape: seq<byte>, s: seq<T>, n: nat) returns (choices: seq<nat>)
    requires n <= |s| <= U32_MAX
    requires ShuffleDraw(tape, s, n).Drawn?
    ensures ValidChoices(choices) && |choices| == n
    ensures ShuffleDraw(tape, s, n).value == ShuffleBy(s, choices)
    decreases n
  {
    if n <= 1 {
      choices := seq(n, i => 0);
      assert n == 1 ==> Swap(s, 0, 0) == s && choices[..0] == [];
    } else {
      var j := RandomIndex(tape, n);
      var below := DrawIsChoices(j.rest, Swap(s, n - 1, j.value), n - 1);
      choices := below + [j.value];
      assert choices[..n - 1] == below;
    }
  }

  function WordBytes(v: nat): (tape: seq<byte>)
    requires v <= U32_MAX
    ensures |tape| == 4 && Word(tape) == v
  {
    var v1 := v / 0x100;
    var v2 := v1 / 0x100;
    [v % 0x100, v1 % 0x100, v2 % 0x100, v2 / 0x100]
  }

  /** Every vector of choices is delivered by some stretch of the source. */
  lemma {:induction false} ChoicesAreDrawn<T>(s: seq<T>, choices: seq<nat>, after: seq<byte>)
    returns (tape: seq<byte>)
    requires |choices| <= |s| <= U32_MAX && ValidChoices(choices)
    ensures ShuffleDraw(tape, s, |choices|) == Drawn(ShuffleBy(s, choices), after)
    decreases |choices|
  {
    var n := |choices|;
    if n <= 1 {
      tape := after;
      assert n == 1 ==> Swap(s, 0, 0) == s && choices[..0] == [];
    } else {
      var j := choices[n - 1];
      var later := ChoicesAreDrawn(Swap(s, n - 1, j), choices[..n - 1], after);
      tape := WordBytes(j) + later;
      DrawWord(n, j, later);
    }
  }

  lemma {:induction false} DrawWord(n: nat, j: nat, later: seq<byte>)
    requires j < n <= U32_MAX
    ensures RandomIndex(WordBytes(j) + later, n) == Drawn(j, later)
  {
    var tape := WordBytes(j) + later;
    assert tape[..4] == WordBytes(j) && tape[4..] == later;
    assert Word(tape) == Word(WordBytes(j));
    SmallAccepted(n, j);
  }

  lemma LimitAtLeast(m: nat, n: nat)
    requires 0 < n <= m
    ensures m - m % n >= n
  {
    assert m == (m / n) * n + m % n;
    assert m / n >= 1 ==> (m / n) * n >= n;
  }

  lemma {:induction false} SmallAccepted(n: nat, j: nat)
    requires j < n
    ensures n <= U32_MAX ==> j < WordLimit(n)
    ensures n <= 256 ==> j < ByteLimit(n)
    ensures j % n == j
  {
    if n <= U32_MAX { LimitAtLeast(U32_MAX, n); }
    if n <= 256 { LimitAtLeast(256, n); }
    ModOfSum(0, n, j);
  }
}
