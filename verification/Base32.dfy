/** Ids as Base32 strings: `to_str_base32` and `from_str_base32` of `SnowflakeGen` in
    `src/fast_ulid.rs`. Strings are the sequences of their bytes. */
module Base32 {
  import opened Numbers
  import opened SnowflakeIds

  /** Crockford's alphabet, in ascending character order. */
  const ALPHABET: string := "0123456789ABCDEFGHJKMNPQRSTVWXYZ"

  /** `DECODE`: the digit of a character, or -1. The table enters the alphabet twice and no lower
      case, whatever its comment says. */
  function DigitOf(c: char): (d: int)
    ensures -1 <= d < 32
    ensures d >= 0 ==> ALPHABET[d] == c
    ensures d == -1 ==> c !in ALPHABET
  {
    DigitFrom(c, 0)
  }

  function DigitFrom(c: char, i: nat): (d: int)
    requires i <= 32
    ensures -1 <= d < 32
    ensures d >= 0 ==> ALPHABET[d] == c
    ensures d == -1 ==> forall j :: i <= j < 32 ==> ALPHABET[j] != c
    decreases 32 - i
  {
    if i == 32 then -1 else if ALPHABET[i] == c then i else DigitFrom(c, i + 1)
  }

  lemma AlphabetAscends()
    ensures |ALPHABET| == 32
    ensures forall i, j :: 0 <= i < j < 32 ==> ALPHABET[i] < ALPHABET[j]
  {
    assert forall i :: 0 <= i < 31 ==> ALPHABET[i] < ALPHABET[i + 1];
    forall i, j | 0 <= i < j < 32 ensures ALPHABET[i] < ALPHABET[j] {
      AscendsFrom(i, j);
    }
  }

  lemma {:induction false} AscendsFrom(i: nat, j: nat)
    requires i < j < 32 && forall k :: 0 <= k < 31 ==> ALPHABET[k] < ALPHABET[k + 1]
    ensures ALPHABET[i] < ALPHABET[j]
    decreases j
  {
    assert ALPHABET[j - 1] < ALPHABET[j - 1 + 1];
    if i < j - 1 {
      AscendsFrom(i, j - 1);
    }
  }

  lemma DigitOfLetter(d: nat)
    requires d < 32
    ensures DigitOf(ALPHABET[d]) == d
  {
    hide DigitOf;
    AlphabetIsInjective();
    assert ALPHABET[d] in ALPHABET;
  }

  lemma AlphabetIsInjective()
    ensures |ALPHABET| == 32
    ensures forall i, j :: 0 <= i < 32 && 0 <= j < 32 && ALPHABET[i] == ALPHABET[j] ==> i == j
  {
    AlphabetAscends();
    forall i, j | 0 <= i < 32 && 0 <= j < 32 && i != j ensures ALPHABET[i] != ALPHABET[j] {
      if i < j {
        assert ALPHABET[i] < ALPHABET[j];
      } else {
        assert ALPHABET[j] < ALPHABET[i];
      }
    }
  }

  // ----- Numbers as digits -----

  function Pow32(k: nat): nat {
    if k == 0 then 1 else 32 * Pow32(k - 1)
  }

  /** The low `k` base-32 digits, most significant first, as characters. */
  function Letters(v: nat, k: nat): (s: string)
    ensures |s| == k
  {
    if k == 0 then [] else Letters(v / 32, k - 1) + [ALPHABET[v % 32]]
  }

  /** The number a string of digits stands for. */
  function ValueOf(s: string): nat
    requires WellFormed(s)
  {
    if s == [] then 0 else
    ValueOf(s[..|s| - 1]) * 32 + DigitOf(s[|s| - 1])
  }

  predicate WellFormed(s: string) {
    forall i :: 0 <= i < |s| ==> DigitOf(s[i]) >= 0
  }

  lemma {:induction false} LettersAreWellFormed(v: nat, k: nat)
    ensures WellFormed(Letters(v, k))
  {
    if k > 0 {
      LettersAreWellFormed(v / 32, k - 1);
      DigitOfLetter(v % 32);
    }
  }

  lemma {:induction false} ValueOfLetters(v: nat, k: nat)
    requires v < Pow32(k)
    ensures WellFormed(Letters(v, k)) && ValueOf(Letters(v, k)) == v
  {
    LettersAreWellFormed(v, k);
    if k > 0 {
      ValueOfLetters(v / 32, k - 1);
      DigitOfLetter(v % 32);
      assert Letters(v, k)[..k - 1] == Letters(v / 32, k - 1);
    }
  }

  lemma {:induction false} LettersOfValue(s: string)
    requires WellFormed(s)
    ensures ValueOf(s) < Pow32(|s|)
    ensures Letters(ValueOf(s), |s|) == s
    decreases |s|
  {
    hide *;
    EmptyWord();
    AlphabetSize();
    if s != [] {
      var front, d := s[..|s| - 1], DigitOf(s[|s| - 1]);
      FrontIsWellFormed(s);
      LettersOfValue(front);
      ValueSnoc(s);
      PowerStep(|s|);
      LettersSnoc(ValueOf(front), d, |s|);
      assert s == front + [ALPHABET[d]];
    } else {
      PowerStep(0);
    }
  }

  lemma AlphabetSize()
    ensures |ALPHABET| == 32
  {
  }

  lemma EmptyWord()
    ensures ValueOf([]) == 0 && Letters(0, 0) == []
  {
  }

  lemma FrontIsWellFormed(s: string)
    requires s != [] && WellFormed(s)
    ensures WellFormed(s[..|s| - 1]) && DigitOf(s[|s| - 1]) >= 0
  {
  }

  lemma LettersSnoc(v: nat, d: nat, k: nat)
    requires d < 32 && k > 0
    ensures Letters(v * 32 + d, k) == Letters(v, k - 1) + [ALPHABET[d]]
  {
    assert (v * 32 + d) / 32 == v && (v * 32 + d) % 32 == d;
  }

  lemma ValueSnoc(s: string)
    requires s != [] && WellFormed(s)
    ensures ValueOf(s) == ValueOf(s[..|s| - 1]) * 32 + DigitOf(s[|s| - 1])
    ensures ValueOf([]) == 0
  {
    hide DigitOf;
  }

  lemma PowerStep(k: nat)
    ensures Pow32(k) == if k == 0 then 1 else 32 * Pow32(k - 1)
  {
  }

  // ----- Order -----

  /** The strings agree before position `i`, and there the first has the smaller character. */
  ghost predicate LessAt(s: string, t: string, i: nat)
    requires |s| == |t|
  {
    i < |s| && s[i] < t[i] && s[..i] == t[..i]
  }

  /** Lexicographic order on strings of equal length. */
  ghost predicate LexLess(s: string, t: string)
    requires |s| == |t|
  {
    exists i: nat :: LessAt(s, t, i)
  }

  lemma LessInFront(s: string, t: string, s': string, t': string, i: nat)
    requires |s| == |t| && |s'| == |t'| && i < |s|
    ensures LessAt(s + s', t + t', i) <==> LessAt(s, t, i)
  {
    assert (s + s')[..i] == s[..i] && (t + t')[..i] == t[..i];
  }

  lemma LessBehind(s: string, t: string, s': string, t': string, i: nat)
    requires |s| == |t| && |s'| == |t'| && i < |s'|
    ensures LessAt(s + s', t + t', |s| + i) <==> s == t && LessAt(s', t', i)
  {
    var a, b := (s + s')[..|s| + i], (t + t')[..|s| + i];
    assert a == s + s'[..i] && b == t + t'[..i];
    assert a[..|s|] == s && b[..|s|] == t && a[|s|..] == s'[..i] && b[|s|..] == t'[..i];
  }

  lemma LexAppend(s: string, t: string, s': string, t': string)
    requires |s| == |t| && |s'| == |t'|
    ensures LexLess(s + s', t + t') <==> LexLess(s, t) || (s == t && LexLess(s', t'))
  {
    if i: nat :| LessAt(s + s', t + t', i) {
      if i < |s| {
        LessInFront(s, t, s', t', i);
      } else {
        LessBehind(s, t, s', t', i - |s|);
      }
    }
    if i: nat :| LessAt(s, t, i) {
      LessInFront(s, t, s', t', i);
    }
    if i: nat :| LessAt(s', t', i) {
      LessBehind(s, t, s', t', i);
    }
  }

  lemma LexEmpty()
    ensures !LexLess([], [])
  {
  }

  lemma LexOne(c: char, d: char)
    ensures LexLess([c], [d]) <==> c < d
  {
    assert LessAt([c], [d], 0) <==> c < d by {
      assert [c][..0] == [d][..0];
    }
  }

  /** Numbers below 32^k are ordered like their digit strings. */
  lemma {:induction false} OrderOfLetters(v: nat, w: nat, k: nat)
    requires v < Pow32(k) && w < Pow32(k)
    ensures v < w <==> LexLess(Letters(v, k), Letters(w, k))
    ensures v == w <==> Letters(v, k) == Letters(w, k)
    decreases k
  {
    hide LexLess;
    LexEmpty();
    if k > 0 {
      var v', w' := v / 32, w / 32;
      var c, d := ALPHABET[v % 32], ALPHABET[w % 32];
      OrderOfLetters(v', w', k - 1);
      LexAppend(Letters(v', k - 1), Letters(w', k - 1), [c], [d]);
      LexOne(c, d);
      AlphabetAscends();
      LettersSplit(v, w, k);
    }
  }

  lemma LettersSplit(v: nat, w: nat, k: nat)
    requires k > 0
    ensures Letters(v, k) == Letters(w, k) <==>
            Letters(v / 32, k - 1) == Letters(w / 32, k - 1) && ALPHABET[v % 32] == ALPHABET[w % 32]
  {
    assert Letters(v, k)[..k - 1] == Letters(v / 32, k - 1) && Letters(v, k)[k - 1] == ALPHABET[v % 32];
    assert Letters(w, k)[..k - 1] == Letters(w / 32, k - 1) && Letters(w, k)[k - 1] == ALPHABET[w % 32];
  }

  // ----- Encoding and decoding ids -----

  const LOW: nat := 0x10_0000

  /** 9 digits of time and 4 of machine and sequence. */
  function ToStr(id: nat): (s: string)
    ensures |s| == 13
  {
    Letters(id / LOW, 9) + Letters(id % LOW, 4)
  }

  datatype Decoded = Decoded(id: nat) | InvalidLength(length: nat) | InvalidCharacter(index: nat)

  /** The first position at or after `i` that holds no digit. */
  function FirstInvalid(s: string, i: nat): (n: nat)
    requires i <= |s|
    ensures i <= n <= |s|
    ensures n < |s| ==> DigitOf(s[n]) == -1
    ensures forall j :: i <= j < n ==> DigitOf(s[j]) >= 0
    decreases |s| - i
  {
    if i == |s| || DigitOf(s[i]) == -1 then i else FirstInvalid(s, i + 1)
  }

  function FromStr(s: string): Decoded {
    if |s| != 13 then InvalidLength(|s|)
    else if FirstInvalid(s, 0) < 13 then InvalidCharacter(FirstInvalid(s, 0))
    else Decoded((ValueOf(s[..9]) * LOW) % TWO_64 + ValueOf(s[9..]))
  }

  lemma Powers()
    ensures Pow32(9) == 0x2000_0000_0000 && Pow32(8) == 0x100_0000_0000 && Pow32(4) == LOW
  {
    assert Pow32(2) == 0x400 && Pow32(3) == 0x8000;
    assert Pow32(5) == 0x200_0000 && Pow32(6) == 0x4000_0000 && Pow32(7) == 0x8_0000_0000;
    assert Pow32(8) == 0x100_0000_0000;
  }

  /** A front of nine digits and a back of four decode to their values put together. */
  lemma DecodeParts(front: string, back: string)
    requires |front| == 9 && |back| == 4 && WellFormed(front) && WellFormed(back)
    ensures FromStr(front + back) == Decoded((ValueOf(front) * LOW) % TWO_64 + ValueOf(back))
  {
    hide DigitOf, ValueOf;
    var s := front + back;
    assert s[..9] == front && s[9..] == back;
    forall i | 0 <= i < 13 ensures DigitOf(s[i]) >= 0 {
      assert s[i] == if i < 9 then front[i] else back[i - 9];
    }
  }

  /** Decoding undoes encoding, for every 64-bit id. */
  lemma RoundTrip(id: nat)
    requires id < TWO_64
    ensures FromStr(ToStr(id)) == Decoded(id)
  {
    hide Letters, ValueOf, FromStr, Pow32, WellFormed;
    Powers();
    ValueOfLetters(id / LOW, 9);
    ValueOfLetters(id % LOW, 4);
    DecodeParts(Letters(id / LOW, 9), Letters(id % LOW, 4));
  }

  /** A string decodes exactly when it has 13 characters of the alphabet; lower case does not. */
  lemma DecodableIffWellFormed(s: string)
    ensures FromStr(s).Decoded? <==> |s| == 13 && forall c :: c in s ==> c in ALPHABET
  {
    if |s| == 13 {
      var n := FirstInvalid(s, 0);
      if n < 13 {
        assert s[n] in s;
      } else {
        forall c | c in s ensures c in ALPHABET {
          var i :| 0 <= i < 13 && s[i] == c;
          assert ALPHABET[DigitOf(s[i])] == c;
        }
      }
    }
  }

  /** The error of a string that does not decode: its length if that is not 13, otherwise the first
      position that holds no letter of the alphabet. */
  lemma ErrorsOf(s: string, i: nat)
    ensures FromStr(s).InvalidLength? <==> |s| != 13
    ensures FromStr(s).InvalidLength? ==> FromStr(s).length == |s|
    ensures FromStr(s) == InvalidCharacter(i) <==>
            |s| == 13 && i < 13 && s[i] !in ALPHABET && forall j :: 0 <= j < i ==> s[j] in ALPHABET
  {
    hide DigitOf, ValueOf, Pow32, LexLess;
    forall j | 0 <= j < |s| ensures DigitOf(s[j]) >= 0 <==> s[j] in ALPHABET {
      LetterOrNot(s[j]);
    }
  }

  lemma LetterOrNot(c: char)
    ensures DigitOf(c) >= 0 <==> c in ALPHABET
  {
  }

  /** Crockford's alphabet: the digits and the capitals other than I, L, O and U. */
  lemma Letters32(c: char)
    ensures c in ALPHABET <==>
            ('0' <= c <= '9' || 'A' <= c <= 'Z') && c != 'I' && c != 'L' && c != 'O' && c != 'U'
  {
  }

  lemma LowerCaseIsRefused(s: string, i: nat)
    requires i < |s| && 'a' <= s[i] <= 'z'
    ensures !FromStr(s).Decoded?
  {
    hide FromStr;
    AlphabetAscends();
    DecodableIffWellFormed(s);
    assert s[i] in s;
    forall c | c in ALPHABET ensures c <= 'Z' {
      var j :| 0 <= j < 32 && ALPHABET[j] == c;
      assert j < 31 ==> ALPHABET[j] < ALPHABET[31];
    }
  }

  /** Encoding undoes decoding exactly when the first digit is below 16; otherwise the top bit falls
      off, and another string comes back. */
  lemma EncodeUndoesDecode(s: string)
    requires FromStr(s).Decoded?
    ensures FromStr(s).id < TWO_64
    ensures ToStr(FromStr(s).id) == s <==> DigitOf(s[0]) < 16
  {
    hide Letters, ValueOf, FromStr, Pow32, WellFormed, DigitOf, ToStr, LexLess;
    DecodedParts(s);
    var front, back := s[..9], s[9..];
    LettersOfValue(front);
    LettersOfValue(back);
    var hi, lo := ValueOf(front), ValueOf(back);
    TopDigit(front);
    assert lo < LOW by { Powers(); }
    TimeBits(hi, lo);
    var top := hi % TIME_LIMIT;
    FewerLetters(top, hi);
    ToStrOfParts(top, lo);
    assert s == front + back && s[0] == front[0];
    SameFront(Letters(top, 9), front, back);
  }

  /** Shifting a number of 45 bits by 20 in 64 bits keeps its low 44. */
  lemma TimeBits(hi: nat, lo: nat)
    requires lo < LOW
    ensures (hi * LOW) % TWO_64 + lo == (hi % TIME_LIMIT) * LOW + lo < TWO_64
    ensures hi % TIME_LIMIT == hi <==> hi < TIME_LIMIT
  {
    ShiftedTime(hi);
  }

  lemma FewerLetters(v: nat, w: nat)
    requires v < TIME_LIMIT && w < Pow32(9)
    ensures Letters(v, 9) == Letters(w, 9) <==> v == w
  {
    hide Letters, LexLess;
    Powers();
    OrderOfLetters(v, w, 9);
  }

  lemma DecodedParts(s: string)
    requires FromStr(s).Decoded?
    ensures |s| == 13 && WellFormed(s[..9]) && WellFormed(s[9..])
    ensures FromStr(s).id == (ValueOf(s[..9]) * LOW) % TWO_64 + ValueOf(s[9..])
  {
    hide DigitOf, ValueOf;
  }

  lemma ToStrOfParts(hi: nat, lo: nat)
    requires lo < LOW
    ensures ToStr(hi * LOW + lo) == Letters(hi, 9) + Letters(lo, 4)
  {
    hide Letters;
    assert (hi * LOW + lo) / LOW == hi && (hi * LOW + lo) % LOW == lo;
  }

  lemma SameFront(a: string, b: string, back: string)
    requires |a| == |b|
    ensures a + back == b + back <==> a == b
  {
    assert (a + back)[..|a|] == a && (b + back)[..|a|] == b;
  }

  /** The value of nine digits is below 2^44 exactly when the first digit is below 16. */
  lemma TopDigit(s: string)
    requires |s| == 9 && WellFormed(s)
    ensures ValueOf(s) < TIME_LIMIT <==> DigitOf(s[0]) < 16
  {
    hide ValueOf, DigitOf, Pow32, Letters;
    FirstDigit(s);
    LettersOfValue(s[1..]);
    Powers();
  }

  lemma {:induction false} FirstDigit(s: string)
    requires s != [] && WellFormed(s)
    ensures ValueOf(s) == DigitOf(s[0]) * Pow32(|s| - 1) + ValueOf(s[1..])
    decreases |s|
  {
    hide DigitOf, Pow32;
    var front, last := s[..|s| - 1], DigitOf(s[|s| - 1]);
    ValueSnoc(s);
    PowerStep(|s| - 1);
    if |s| == 1 {
      assert front == [] && s[1..] == [];
    } else {
      var rest := s[1..];
      FirstDigit(front);
      ValueSnoc(rest);
      assert front[1..] == rest[..|rest| - 1];
      hide ValueOf;
      MulAssoc(DigitOf(s[0]), Pow32(|s| - 2));
    }
  }

  lemma MulAssoc(x: int, y: int)
    ensures x * y * 32 == x * (32 * y)
  {
  }

  /** Ids are ordered like their strings. */
  lemma OrderIsLexicographic(v: nat, w: nat)
    requires v < TWO_64 && w < TWO_64
    ensures v < w <==> LexLess(ToStr(v), ToStr(w))
  {
    Powers();
    hide Letters, LexLess, Pow32;
    OrderOfLetters(v / LOW, w / LOW, 9);
    OrderOfLetters(v % LOW, w % LOW, 4);
    LexAppend(Letters(v / LOW, 9), Letters(w / LOW, 9), Letters(v % LOW, 4), Letters(w % LOW, 4));
  }

  /** The strings of every run of a generator sort in the order of the calls. */
  lemma RunSortsLexicographically(strategy: Strategy, machine: nat, s: State, rs: seq<Reading>, limit: nat)
    requires machine < MACHINES && s.sequence < SEQUENCES && s.lastTs <= limit
    requires forall r :: r in rs ==> r.clock <= limit
    requires limit + |rs| < TIME_LIMIT
    ensures var ids := Ids(machine, States(strategy, s, rs));
            forall i, j :: 0 <= i < j < |ids| ==> LexLess(ToStr(ids[i]), ToStr(ids[j]))
  {
    IdsStrictlyIncrease(strategy, machine, s, rs, limit);
    hide States, Ids, ToStr, LexLess;
    var ids := Ids(machine, States(strategy, s, rs));
    forall i, j | 0 <= i < j < |ids| ensures LexLess(ToStr(ids[i]), ToStr(ids[j])) {
      OrderIsLexicographic(ids[i], ids[j]);
    }
  }

  // ----- The loops -----

  /** One encoding loop: fills `chars[from..to]` from the right. */
  method PutLetters(chars: array<char>, from: nat, to: nat, v: nat)
    requires from <= to <= chars.Length
    modifies chars
    ensures chars[from..to] == Letters(v, to - from)
    ensures chars[..from] == old(chars[..from]) && chars[to..] == old(chars[to..])
  {
    var t, i := v, to;
    assert chars[i..to] == [] && Letters(v, to - from) + [] == Letters(v, to - from);
    while i > from
      invariant from <= i <= to
      invariant Letters(v, to - from) == Letters(t, i - from) + chars[i..to]
      invariant chars[..from] == old(chars[..from]) && chars[to..] == old(chars[to..])
    {
      ghost var later := chars[i..to];
      i := i - 1;
      chars[i] := ALPHABET[t % 32];
      assert chars[i..to] == [ALPHABET[t % 32]] + later;
      t := t / 32;
    }
  }

  method ToStrBase32(id: nat) returns (s: string)
    ensures s == ToStr(id)
  {
    var chars := new char[13](_ => '0');
    PutLetters(chars, 0, 9, id / LOW);
    ghost var front := chars[..9];
    PutLetters(chars, 9, 13, id % LOW);
    assert chars[0..9] == chars[..9];
    assert chars[..] == chars[..9] + chars[9..13];
    s := chars[..];
  }

  lemma NoDigits(s: string, from: nat)
    requires from <= |s|
    ensures s[from..from] == [] && ValueOf([]) == 0
  {
  }

  lemma OneMoreDigit(s: string, from: nat, i: nat)
    requires from <= i < |s| && WellFormed(s[..i]) && WellFormed(s[from..i]) && DigitOf(s[i]) >= 0
    ensures WellFormed(s[..i + 1]) && WellFormed(s[from..i + 1])
    ensures ValueOf(s[from..i + 1]) == ValueOf(s[from..i]) * 32 + DigitOf(s[i])
  {
    hide DigitOf;
    assert forall j :: 0 <= j < i ==> s[..i + 1][j] == s[..i][j];
    assert forall j :: 0 <= j < i - from ==> s[from..i + 1][j] == s[from..i][j];
    assert s[from..i + 1][..i - from] == s[from..i];
  }

  /** One decoding loop over `s[from..to]`. */
  method TakeDigits(s: string, from: nat, to: nat) returns (ok: bool, v: nat, bad: nat)
    requires from <= to <= |s| && WellFormed(s[..from])
    ensures ok <==> FirstInvalid(s, 0) >= to
    ensures ok ==> WellFormed(s[from..to]) && v == ValueOf(s[from..to])
    ensures !ok ==> bad == FirstInvalid(s, 0) < to
  {
    hide DigitOf, ValueOf;
    v, bad := 0, from;
    var i := from;
    NoDigits(s, from);
    while i < to
      invariant from <= i <= to
      invariant WellFormed(s[..i]) && WellFormed(s[from..i]) && v == ValueOf(s[from..i])
    {
      var d := DigitOf(s[i]);
      if d == -1 {
        assert forall j :: 0 <= j < i ==> s[j] == s[..i][j];
        return false, v, i;
      }
      v := v * 32 + d;
      OneMoreDigit(s, from, i);
      i := i + 1;
    }
    assert forall j :: 0 <= j < to ==> s[j] == s[..to][j];
    ok := true;
  }

  method FromStrBase32(s: string) returns (r: Decoded)
    ensures r == FromStr(s)
  {
    if |s| != 13 {
      return InvalidLength(|s|);
    }
    var ok, ts, bad := TakeDigits(s, 0, 9);
    if !ok {
      return InvalidCharacter(bad);
    }
    assert s[0..9] == s[..9];
    var low;
    ok, low, bad := TakeDigits(s, 9, 13);
    if !ok {
      return InvalidCharacter(bad);
    }
    assert s[9..13] == s[9..];
    return Decoded((ts * LOW) % TWO_64 + low);
  }
}
