/** Password generation: seed one character per class, fill from the alphabet, shuffle. */
module Password {
  import opened Prelude
  import opened Shuffle

  datatype CharsetHint = CharsetHint(letters: bool, digits: bool, symbols: bool)

  const LOWERCASE: string := "abcdefghijklmnopqrstuvwxyz"
  const UPPERCASE: string := "ABCDEFGHIJKLMNOPQRSTUVWXYZ"
  const LETTERS: string := LOWERCASE + UPPERCASE
  const DIGITS: string := "0123456789"
  const SYMBOLS: string := "!@#$%^&*()-_=+[]{};:,.<>/?"

  const MIN_GENERATED_LENGTH: nat := 16
  const MAX_GENERATED_LENGTH: nat := 64
  const DEFAULT_GENERATED_LENGTH: nat := 24

  function Classes(hint: CharsetHint): (classes: seq<string>)
    ensures |classes| <= 3
  {
    (if hint.letters then [LETTERS] else [])
    + (if hint.digits then [DIGITS] else [])
    + (if hint.symbols then [SYMBOLS] else [])
  }

  function Alphabet(hint: CharsetHint): (alphabet: string)
    ensures |alphabet| <= 256
  {
    (if hint.letters then LETTERS else "")
    + (if hint.digits then DIGITS else "")
    + (if hint.symbols then SYMBOLS else "")
  }

  predicate IsLetter(c: char) { 'a' <= c <= 'z' || 'A' <= c <= 'Z' }
  predicate IsDigit(c: char) { '0' <= c <= '9' }

  lemma LetterChars(c: char)
    ensures c in LOWERCASE ==> 'a' <= c <= 'z'
    ensures c in UPPERCASE ==> 'A' <= c <= 'Z'
  {
  }

  lemma ClassChars(c: char)
    ensures c in LETTERS ==> IsLetter(c)
    ensures c in DIGITS ==> IsDigit(c)
    ensures c in SYMBOLS ==> !IsLetter(c) && !IsDigit(c)
  {
    LetterChars(c);
  }

  /** The classes are all ASCII letters, all digits, and 26 other printable characters. */
  lemma {:induction false} ClassesAreComplete(c: char)
    ensures c in LETTERS <==> IsLetter(c)
    ensures c in DIGITS <==> IsDigit(c)
    ensures |LETTERS| == 52 && |DIGITS| == 10 && |SYMBOLS| == 26
    ensures c in SYMBOLS ==> '!' <= c <= '~'
  {
    ClassChars(c);
    if 'a' <= c <= 'z' {
      assert LOWERCASE[c as int - 'a' as int] == c;
      assert LETTERS[c as int - 'a' as int] == c;
    } else if 'A' <= c <= 'Z' {
      assert UPPERCASE[c as int - 'A' as int] == c;
      assert LETTERS[26 + (c as int - 'A' as int)] == c;
    } else if '0' <= c <= '9' {
      assert DIGITS[c as int - '0' as int] == c;
    }
  }

  lemma {:induction false} ClassesDisjoint(hint: CharsetHint, c: char, i: nat, j: nat)
    requires i < |Classes(hint)| && j < |Classes(hint)|
    requires c in Classes(hint)[i] && c in Classes(hint)[j]
    ensures i == j
  {
    ClassChars(c);
  }

  lemma {:induction false} ClassInAlphabet(hint: CharsetHint, i: nat, c: char)
    requires i < |Classes(hint)| && c in Classes(hint)[i]
    ensures c in Alphabet(hint)
  {
  }

  lemma ClassesNonEmpty(hint: CharsetHint)
    ensures Alphabet(hint) == "" <==> Classes(hint) == []
    ensures Classes(hint) != [] ==> Pickable(Classes(hint), Alphabet(hint))
  {
  }

  // ----- generation -----------------------------------------------------------

  /** One character from each of the sources, in order. */
  function PickAll(tape: seq<byte>, sources: seq<string>): (d: Draw<string>)
    requires forall i :: 0 <= i < |sources| ==> 0 < |sources[i]| <= 256
    ensures d.Drawn? ==> |d.value| == |sources|
    ensures d.Drawn? ==> forall i :: 0 <= i < |sources| ==> d.value[i] in sources[i]
  {
    if sources == [] then Drawn("", tape)
    else
      var n := |sources| - 1;
      var before := PickAll(tape, sources[..n]);
      if before.Dry? then Dry
      else
        var k := PickIndex(before.rest, |sources[n]|);
        if k.Dry? then Dry else Drawn(before.value + [sources[n][k.value]], k.rest)
  }

  ghost predicate Pickable(classes: seq<string>, alphabet: string) {
    && 0 < |alphabet| <= 256
    && forall i :: 0 <= i < |classes| ==> 0 < |classes[i]| <= 256
  }

  /** A class each for the first characters, the whole alphabet for the rest. */
  function Sources(len: nat, classes: seq<string>, alphabet: string): (sources: seq<string>)
    requires Pickable(classes, alphabet)
    ensures |sources| == len
    ensures forall i :: 0 <= i < |sources| ==> 0 < |sources[i]| <= 256
  {
    seq(len, i requires 0 <= i < len => if i < |classes| then classes[i] else alphabet)
  }

  function Generate(tape: seq<byte>, len: nat, hint: CharsetHint): Draw<string>
    requires len <= U32_MAX
  {
    if len == 0 || Classes(hint) == [] then Drawn("", tape)
    else
      ClassesNonEmpty(hint);
      var picked := PickAll(tape, Sources(len, Classes(hint), Alphabet(hint)));
      if picked.Dry? then Dry else ShuffleDraw(picked.rest, picked.value, len)
  }

  /** The operating system's random source: a finite stretch of its output, consumed in order. */
  class OsRng {
    var tape: seq<byte>

    constructor (tape: seq<byte>)
      ensures this.tape == tape
    {
      this.tape := tape;
    }

    /** None when the stretch ends while samples are still being rejected. */
    method PickByte(alphabet: string) returns (c: Option<char>)
      requires 0 < |alphabet| <= 256
      modifies this
      ensures match PickIndex(old(tape), |alphabet|)
              case Drawn(k, rest) => c == Some(alphabet[k]) && tape == rest
              case Dry => c == None
    {
      var n := |alphabet|;
      while tape != []
        invariant PickIndex(tape, n) == PickIndex(old(tape), n)
        decreases |tape|
      {
        var b := tape[0];
        tape := tape[1..];
        var limit := 256 - 256 % n;
        if b < limit {
          return Some(alphabet[b % n]);
        }
      }
      return None;
    }

    method NextIndex(n: nat) returns (k: Option<nat>)
      requires 0 < n <= U32_MAX
      modifies this
      ensures match RandomIndex(old(tape), n)
              case Drawn(v, rest) => k == Some(v) && tape == rest
              case Dry => k == None
    {
      while |tape| >= 4
        invariant RandomIndex(tape, n) == RandomIndex(old(tape), n)
        decreases |tape|
      {
        var v := Word(tape);
        tape := tape[4..];
        var limit := U32_MAX - U32_MAX % n;
        if v < limit {
          return Some(v % n);
        }
      }
      return None;
    }

    method ShuffleInPlace(a: array<char>) returns (done: bool)
      requires a.Length <= U32_MAX
      modifies this, a
      ensures match ShuffleDraw(old(tape), old(a[..]), a.Length)
              case Drawn(order, rest) => done && a[..] == order && tape == rest
              case Dry => !done
    {
      var i := a.Length;
      while i > 1
        invariant 0 <= i <= a.Length
        invariant ShuffleDraw(tape, a[..], i) == ShuffleDraw(old(tape), old(a[..]), a.Length)
      {
        var j := NextIndex(i);
        if j.None? {
          return false;
        }
        assert Swap(a[..], i - 1, j.value) == a[..][i - 1 := a[j.value]][j.value := a[i - 1]];
        a[i - 1], a[j.value] := a[j.value], a[i - 1];
        i := i - 1;
      }
      return true;
    }

    /** One more pick; `start` is the source where picking began. */
    method Append(bytes: string, source: string, ghost start: seq<byte>, ghost sources: seq<string>)
      returns (more: Option<string>)
      requires forall i :: 0 <= i < |sources| ==> 0 < |sources[i]| <= 256
      requires |bytes| < |sources| && source == sources[|bytes|]
      requires PickAll(start, sources[..|bytes|]) == Drawn(bytes, tape)
      modifies this
      ensures more.None? ==> PickAll(start, sources).Dry?
      ensures more.Some? ==> |more.value| == |bytes| + 1
      ensures more.Some? ==> PickAll(start, sources[..|more.value|]) == Drawn(more.value, tape)
    {
      PickNext(start, sources, bytes, tape);
      var c := PickByte(source);
      if c.None? {
        PickAllDry(start, sources, |bytes| + 1);
        return None;
      }
      return Some(bytes + [c.value]);
    }

    /** The characters before shuffling: one per class while there is room, then any. */
    method PickCharacters(len: nat, classes: seq<string>, alphabet: string) returns (chars: Option<string>)
      requires Pickable(classes, alphabet)
      modifies this
      ensures match PickAll(old(tape), Sources(len, classes, alphabet))
              case Drawn(s, rest) => chars == Some(s) && tape == rest
              case Dry => chars == None
    {
      var bytes := "";
      ghost var start, sources := tape, Sources(len, classes, alphabet);
      var seeded := if |classes| < len then |classes| else len;
      for k := 0 to seeded
        invariant |bytes| == k && PickAll(start, sources[..k]) == Drawn(bytes, tape)
      {
        var more := Append(bytes, classes[k], start, sources);
        if more.None? {
          return None;
        }
        bytes := more.value;
      }
      while |bytes| < len
        invariant seeded <= |bytes| <= len
        invariant PickAll(start, sources[..|bytes|]) == Drawn(bytes, tape)
      {
        var more := Append(bytes, alphabet, start, sources);
        if more.None? {
          return None;
        }
        bytes := more.value;
      }
      assert sources[..len] == sources;
      return Some(bytes);
    }

    /** A password, unless the stretch of randomness is too short. */
    method GeneratePassword(len: nat, hint: CharsetHint) returns (password: Option<string>)
      requires len <= U32_MAX
      modifies this
      ensures match Generate(old(tape), len, hint)
              case Drawn(s, rest) => password == Some(s) && tape == rest
              case Dry => password == None
    {
      var classes, alphabet := Classes(hint), Alphabet(hint);
      ClassesNonEmpty(hint);
      if len == 0 || alphabet == "" {
        return Some("");
      }
      var bytes := PickCharacters(len, classes, alphabet);
      if bytes.None? {
        return None;
      }
      var a := new char[len](i requires 0 <= i < len => bytes.value[i]);
      assert a[..] == bytes.value;
      var done := ShuffleInPlace(a);
      if !done {
        return None;
      }
      return Some(a[..]);
    }
  }

  lemma {:induction false} PickNext(tape: seq<byte>, sources: seq<string>, bytes: string, rest: seq<byte>)
    requires forall i :: 0 <= i < |sources| ==> 0 < |sources[i]| <= 256
    requires |bytes| < |sources| && PickAll(tape, sources[..|bytes|]) == Drawn(bytes, rest)
    ensures var source := sources[|bytes|];
            PickAll(tape, sources[..|bytes| + 1]) == match PickIndex(rest, |source|)
            case Drawn(k, rest') => Drawn(bytes + [source[k]], rest')
            case Dry => Dry
  {
    var k := |bytes|;
    assert sources[..k + 1][..k] == sources[..k];
  }

  lemma {:induction false} PickAllDry(tape: seq<byte>, sources: seq<string>, k: nat)
    requires forall i :: 0 <= i < |sources| ==> 0 < |sources[i]| <= 256
    requires k <= |sources| && PickAll(tape, sources[..k]).Dry?
    ensures PickAll(tape, sources).Dry?
  {
    var n := |sources| - 1;
    if k == |sources| {
      assert sources[..k] == sources;
    } else {
      assert sources[..n][..k] == sources[..k];
      PickAllDry(tape, sources[..n], k);
    }
  }

  // ----- what passwords come out ----------------------------------------------

  /** Length, alphabet, and a character of each class that the length leaves room for. */
  ghost predicate Allowed(password: string, len: nat, hint: CharsetHint) {
    if len == 0 || Classes(hint) == [] then password == ""
    else
      && |password| == len
      && (forall i :: 0 <= i < len ==> password[i] in Alphabet(hint))
      && forall k :: 0 <= k < |Classes(hint)| && k < len ==> Meets(password, Classes(hint)[k])
  }

  ghost predicate Meets(password: string, class_: string) {
    exists i :: 0 <= i < |password| && password[i] in class_
  }

  lemma {:induction false} GeneratedIsAllowed(tape: seq<byte>, len: nat, hint: CharsetHint)
    requires len <= U32_MAX && Generate(tape, len, hint).Drawn?
    ensures Allowed(Generate(tape, len, hint).value, len, hint)
  {
    if len != 0 && Classes(hint) != [] {
      ClassesNonEmpty(hint);
      var sources := Sources(len, Classes(hint), Alphabet(hint));
      var picked := PickAll(tape, sources);
      var password := Generate(tape, len, hint).value;
      var choices := DrawIsChoices(picked.rest, picked.value, len);
      ShufflePermutes(picked.value, choices);
      forall i | 0 <= i < len ensures password[i] in Alphabet(hint) {
        assert password[i] in multiset(picked.value);
        var j :| 0 <= j < len && picked.value[j] == password[i];
        if j < |Classes(hint)| { ClassInAlphabet(hint, j, password[i]); }
      }
      forall k | 0 <= k < |Classes(hint)| && k < len ensures Meets(password, Classes(hint)[k]) {
        assert picked.value[k] in sources[k];
        assert picked.value[k] in multiset(password);
        var i :| 0 <= i < len && password[i] == picked.value[k];
      }
    }
  }

  /** Positions 0..m brought, by swaps, to hold a character of their class each. */
  lemma {:induction false} Arrange(password: string, classes: seq<string>, m: nat) returns (front: string)
    requires m <= |password| && m <= |classes|
    requires forall k :: 0 <= k < m ==> Meets(password, classes[k])
    requires forall c, i, j :: 0 <= i < m && 0 <= j < m && c in classes[i] && c in classes[j] ==> i == j
    ensures |front| == |password| && multiset(front) == multiset(password)
    ensures forall k :: 0 <= k < m ==> front[k] in classes[k]
  {
    if m == 0 {
      front := password;
    } else {
      var before := Arrange(password, classes, m - 1);
      forall k | 0 <= k < m - 1 ensures before[k] !in classes[m - 1] {
        assert before[k] in classes[k];
      }
      var w :| 0 <= w < |password| && password[w] in classes[m - 1];
      assert password[w] in multiset(before);
      var i :| 0 <= i < |before| && before[i] == password[w];
      front := Swap(before, m - 1, i);
      SwapPermutes(before, m - 1, i);
    }
  }

  lemma {:induction false} PicksAreDrawn(s: string, sources: seq<string>, after: seq<byte>)
    returns (tape: seq<byte>)
    requires |s| == |sources|
    requires forall i :: 0 <= i < |sources| ==> 0 < |sources[i]| <= 256 && s[i] in sources[i]
    ensures PickAll(tape, sources) == Drawn(s, after)
    decreases |s|
  {
    if s == "" {
      tape := after;
    } else {
      var n := |s| - 1;
      var k :| 0 <= k < |sources[n]| && sources[n][k] == s[n];
      SmallAccepted(|sources[n]|, k);
      tape := PicksAreDrawn(s[..n], sources[..n], [k] + after);
      assert ([k] + after)[1..] == after;
      assert PickIndex([k] + after, |sources[n]|) == Drawn(k, after);
      assert s == s[..n] + [s[n]];
    }
  }

  /** Every allowed password is generated by some output of the random source. */
  lemma {:induction false} AllowedIsGenerated(password: string, len: nat, hint: CharsetHint) returns (tape: seq<byte>)
    requires len <= U32_MAX && Allowed(password, len, hint)
    ensures Generate(tape, len, hint) == Drawn(password, [])
  {
    if len == 0 || Classes(hint) == [] {
      tape := [];
    } else {
      ClassesNonEmpty(hint);
      var classes, alphabet := Classes(hint), Alphabet(hint);
      var m := if |classes| < len then |classes| else len;
      forall c, i, j | 0 <= i < m && 0 <= j < m && c in classes[i] && c in classes[j] ensures i == j {
        ClassesDisjoint(hint, c, i, j);
      }
      var front := Arrange(password, classes, m);
      var sources := Sources(len, classes, alphabet);
      forall i | 0 <= i < len ensures front[i] in sources[i] {
        assert front[i] in multiset(password);
      }
      assert front[len..] == password[len..];
      var choices := ShuffleOnto(front, password, len);
      var swaps := ChoicesAreDrawn(front, choices, []);
      tape := PicksAreDrawn(front, sources, swaps);
    }
  }

  /** The generator's support: exactly the allowed passwords. */
  lemma {:induction false} GeneratorSupport(password: string, len: nat, hint: CharsetHint)
    requires len <= U32_MAX
    ensures (exists tape :: Generate(tape, len, hint).Drawn? && Generate(tape, len, hint).value == password)
       <==> Allowed(password, len, hint)
  {
    if Allowed(password, len, hint) {
      var tape := AllowedIsGenerated(password, len, hint);
      assert Generate(tape, len, hint).Drawn?;
    } else {
      forall tape | Generate(tape, len, hint).Drawn? ensures Generate(tape, len, hint).value != password {
        GeneratedIsAllowed(tape, len, hint);
      }
    }
  }

  // ----- the request handler's policy -----------------------------------------

  /** Requested length, defaulted and clamped to 16..=64. */
  function ClampedLength(length: Option<nat>): (len: nat)
    ensures MIN_GENERATED_LENGTH <= len <= MAX_GENERATED_LENGTH
    ensures length.Some? && MIN_GENERATED_LENGTH <= length.value <= MAX_GENERATED_LENGTH ==> len == length.value
    ensures length.None? ==> len == 24
    ensures length.Some? && length.value < 16 ==> len == 16
    ensures length.Some? && length.value > 64 ==> len == 64
  {
    var wanted := if length.Some? then length.value else DEFAULT_GENERATED_LENGTH;
    if wanted < MIN_GENERATED_LENGTH then MIN_GENERATED_LENGTH
    else if wanted > MAX_GENERATED_LENGTH then MAX_GENERATED_LENGTH
    else wanted
  }

  /** What the handler promises of a password: the clamped length, and a character of every enabled class. */
  ghost predicate Promised(password: string, length: Option<nat>, hint: CharsetHint) {
    && |password| == ClampedLength(length)
    && (hint.letters ==> Meets(password, LETTERS))
    && (hint.digits ==> Meets(password, DIGITS))
    && (hint.symbols ==> Meets(password, SYMBOLS))
  }

  /** Under the handler's policy every enabled class is in the password, whatever the length asked. */
  lemma {:induction false} HandlerPasswords(tape: seq<byte>, length: Option<nat>, hint: CharsetHint)
    ensures var draw := Generate(tape, ClampedLength(length), hint);
            Classes(hint) != [] && draw.Drawn? ==> Promised(draw.value, length, hint)
  {
    if Classes(hint) != [] && Generate(tape, ClampedLength(length), hint).Drawn? {
      GeneratedIsAllowed(tape, ClampedLength(length), hint);
      AllowedIsPromised(Generate(tape, ClampedLength(length), hint).value, length, hint);
    }
  }

  lemma {:induction false} AllowedIsPromised(password: string, length: Option<nat>, hint: CharsetHint)
    requires Classes(hint) != [] && Allowed(password, ClampedLength(length), hint)
    ensures Promised(password, length, hint)
  {
    var classes := Classes(hint);
    assert hint.letters ==> classes[0] == LETTERS;
    assert hint.digits ==> classes[if hint.letters then 1 else 0] == DIGITS;
    assert hint.symbols ==> classes[|classes| - 1] == SYMBOLS;
  }
}
