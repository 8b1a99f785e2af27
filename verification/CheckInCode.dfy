/** Check-in codes (lib/actions/check-in.ts): the bit-buffer encoder that turns a
    digest into ten Crockford base-32 characters, and the normaliser that reads a
    typed code back. */
module CheckInCode {
  import opened Common

  const ALPHABET: string := "0123456789ABCDEFGHJKMNPQRSTVWXYZ"
  const CODE_LENGTH := 10

  type Byte = x: int | 0 <= x < 256
  type Bit = x: int | 0 <= x < 2

  // ---------------------------------------------------------------------------
  // Bits
  // ---------------------------------------------------------------------------

  function Pow2(n: nat): (p: nat)
    ensures p > 0
  {
    if n == 0 then 1 else 2 * Pow2(n - 1)
  }

  /** The number a sequence of bits writes, most significant bit first. */
  function Value(bits: seq<Bit>): nat {
    if bits == [] then 0 else 2 * Value(bits[..|bits| - 1]) + bits[|bits| - 1]
  }

  /** The low `n` bits of `v`, most significant first. */
  function BitsOf(v: nat, n: nat): (bits: seq<Bit>)
    ensures |bits| == n
  {
    if n == 0 then [] else BitsOf(v / 2, n - 1) + [v % 2]
  }

  /** All bits of a digest, in order. */
  function Bits(bytes: seq<Byte>): (bits: seq<Bit>)
    ensures |bits| == 8 * |bytes|
  {
    if bytes == [] then [] else Bits(bytes[..|bytes| - 1]) + BitsOf(bytes[|bytes| - 1], 8)
  }

  lemma {:induction false} ValueBound(bits: seq<Bit>)
    ensures Value(bits) < Pow2(|bits|)
  {
    if bits != [] {
      ValueBound(bits[..|bits| - 1]);
    }
  }

  lemma {:induction false} ValueAppend(a: seq<Bit>, b: seq<Bit>)
    ensures Value(a + b) == Value(a) * Pow2(|b|) + Value(b)
    decreases |b|
  {
    if b == [] {
      assert a + b == a;
    } else {
      var n := |b| - 1;
      ValueAppend(a, b[..n]);
      assert (a + b)[..|a + b| - 1] == a + b[..n];
      assert Value(a) * Pow2(|b|) == 2 * (Value(a) * Pow2(n));
    }
  }

  lemma {:induction false} ValueOfBits(v: nat, n: nat)
    requires v < Pow2(n)
    ensures Value(BitsOf(v, n)) == v
  {
    if n > 0 {
      ValueOfBits(v / 2, n - 1);
      assert BitsOf(v, n)[..n - 1] == BitsOf(v / 2, n - 1);
    }
  }

  lemma {:induction false} ValueInjective(a: seq<Bit>, b: seq<Bit>)
    requires |a| == |b| && Value(a) == Value(b)
    ensures a == b
    decreases |a|
  {
    if a != [] {
      var n := |a| - 1;
      assert a[n] == b[n];
      ValueInjective(a[..n], b[..n]);
      assert a == a[..n] + [a[n]] && b == b[..n] + [b[n]];
    }
  }

  lemma ProductAtLeast(x: int, p: int)
    requires p >= 0
    ensures x >= 1 ==> x * p >= p
    ensures x <= -1 ==> x * p <= -p
  {
  }

  lemma QuotientIsUnique(d: int, q: int, p: nat, m: nat, r: nat)
    requires m < p && r < p && d * p + m == q * p + r
    ensures d == q && m == r
  {
    assert (d - q) * p == r - m;
    ProductAtLeast(d - q, p);
  }

  lemma DivMod(q: nat, p: nat, r: nat)
    requires r < p
    ensures (q * p + r) / p == q && (q * p + r) % p == r
  {
    var x := q * p + r;
    assert (x / p) * p + x % p == x;
    QuotientIsUnique(x / p, q, p, x % p, r);
  }

  /** Shifting the five bits at `from` down and masking them out. */
  lemma ShiftAndMask(bits: seq<Bit>, from: nat)
    requires from + 5 <= |bits|
    ensures Value(bits) / Pow2(|bits| - from - 5) % 32 == Value(bits[from..from + 5])
  {
    var head, five, tail := bits[..from], bits[from..from + 5], bits[from + 5..];
    assert bits == (head + five) + tail;
    ValueAppend(head + five, tail);
    ValueBound(tail);
    DivMod(Value(head + five), Pow2(|tail|), Value(tail));
    ValueAppend(head, five);
    ValueBound(five);
    assert Pow2(5) == 32;
    DivMod(Value(head), 32, Value(five));
  }

  /** Masking all but the low bits away. */
  lemma MaskLow(bits: seq<Bit>, from: nat)
    requires from <= |bits|
    ensures Value(bits) % Pow2(|bits| - from) == Value(bits[from..])
  {
    assert bits == bits[..from] + bits[from..];
    ValueAppend(bits[..from], bits[from..]);
    ValueBound(bits[from..]);
    DivMod(Value(bits[..from]), Pow2(|bits| - from), Value(bits[from..]));
  }

  /** Shifting a byte in. */
  lemma ShiftIn(bits: seq<Bit>, byte: Byte)
    ensures Value(bits + BitsOf(byte, 8)) == Value(bits) * 256 + byte
  {
    assert Pow2(8) == 256;
    ValueOfBits(byte, 8);
    ValueAppend(bits, BitsOf(byte, 8));
  }

  // ---------------------------------------------------------------------------
  // Encoder
  // ---------------------------------------------------------------------------

  /** The i-th group of five bits. */
  function Group(bits: seq<Bit>, i: nat): seq<Bit>
    requires 5 * i + 5 <= |bits|
  {
    bits[5 * i..5 * i + 5]
  }

  function Character(bits: seq<Bit>): char
    requires |bits| == 5
  {
    ValueBound(bits);
    assert Pow2(5) == 32;
    ALPHABET[Value(bits)]
  }

  /** `out` is the first groups of `bits`, one character each. */
  ghost predicate Encodes(out: string, bits: seq<Bit>) {
    5 * |out| <= |bits| && forall i :: 0 <= i < |out| ==> out[i] == Character(Group(bits, i))
  }

  lemma EncodesLonger(out: string, bits: seq<Bit>, more: seq<Bit>)
    requires Encodes(out, bits)
    ensures Encodes(out, bits + more)
  {
    forall i | 0 <= i < |out| ensures Group(bits + more, i) == Group(bits, i) {}
  }

  /** The inner loop: takes groups of five off the buffer while there are any. It
      stands apart only to keep the two loops' proofs apart. */
  method TakeGroups(buffer: nat, bits: nat, length: nat, out: string, ghost held: seq<Bit>, ghost all: seq<Bit>)
    returns (out': string, bits': nat)
    requires buffer == Value(held) && bits == |held| && Encodes(out, all) && |out| <= length
    requires 5 * |out| + |held| == |all| && held == all[5 * |out|..]
    ensures Encodes(out', all) && |out| <= |out'| <= length
    ensures 5 * |out'| + bits' == |all| && bits' <= bits && (bits' < 5 || |out'| == length)
  {
    out', bits' := out, bits;
    while bits' >= 5 && |out'| < length
      invariant |out| <= |out'| <= length && bits' <= bits
      invariant 5 * |out'| + bits' == |all| && Encodes(out', all)
    {
      ghost var from := bits - bits';
      ShiftAndMask(held, from);
      assert held[from..from + 5] == Group(all, |out'|);
      var digit := buffer / Pow2(bits' - 5) % 32;
      out' := out' + [ALPHABET[digit]];
      bits' := bits' - 5;
    }
  }

  /** `toCrockfordBase32`. The shifts and masks are written with `*`, `/` and `%`;
      the buffer never passes thirteen bits, so the original's 32-bit operators
      agree with them. */
  method ToCrockfordBase32(bytes: seq<Byte>, length: nat) returns (out: string)
    ensures Encodes(out, Bits(bytes))
    ensures |out| == (if 8 * |bytes| / 5 < length then 8 * |bytes| / 5 else length)
  {
    out := "";
    var buffer, bits := 0, 0;
    ghost var done: seq<Bit> := [];
    for k := 0 to |bytes|
      invariant done == Bits(bytes[..k]) && Encodes(out, done)
      invariant |out| < length || (k == 0 && length == 0)
      invariant bits < 5 && 5 * |out| + bits == 8 * k
      invariant buffer == Value(done[5 * |out|..])
    {
      BitsSnoc(bytes, k);
      ByteIn(out, done, bytes[k]);
      done := Bits(bytes[..k + 1]);
      buffer := buffer * 256 + bytes[k];
      bits := bits + 8;
      ghost var held := done[5 * |out|..];
      assert buffer < 0x2000 by { ThirteenBits(held); }
      ghost var from := 5 * |out|;
      out, bits := TakeGroups(buffer, bits, length, out, held, done);
      MaskRest(done, from, 5 * |out|);
      buffer := buffer % Pow2(bits);
      if |out| >= length {
        EncodesRest(out, bytes, k + 1);
        return;
      }
    }
    assert bytes[..|bytes|] == bytes;
  }

  /** Masking leaves the value of the bits not yet output. */
  lemma MaskRest(all: seq<Bit>, from: nat, to: nat)
    requires from <= to <= |all|
    ensures Value(all[from..]) % Pow2(|all| - to) == Value(all[to..])
  {
    MaskLow(all[from..], to - from);
    assert all[from..][to - from..] == all[to..];
  }

  lemma BitsSnoc(bytes: seq<Byte>, k: nat)
    requires k < |bytes|
    ensures Bits(bytes[..k + 1]) == Bits(bytes[..k]) + BitsOf(bytes[k], 8)
  {
    assert bytes[..k + 1][..k] == bytes[..k];
  }

  lemma ByteIn(out: string, done: seq<Bit>, byte: Byte)
    requires Encodes(out, done)
    ensures var longer := done + BitsOf(byte, 8);
            Encodes(out, longer) && Value(longer[5 * |out|..]) == Value(done[5 * |out|..]) * 256 + byte
  {
    EncodesLonger(out, done, BitsOf(byte, 8));
    ShiftIn(done[5 * |out|..], byte);
    assert (done + BitsOf(byte, 8))[5 * |out|..] == done[5 * |out|..] + BitsOf(byte, 8);
  }

  lemma ThirteenBits(bits: seq<Bit>)
    requires |bits| < 13
    ensures Value(bits) < 0x2000
  {
    ValueBound(bits);
    Pow2Monotone(|bits|, 13);
    assert Pow2(13) == 0x2000;
  }

  lemma {:induction false} Pow2Monotone(a: nat, b: nat)
    requires a <= b
    ensures Pow2(a) <= Pow2(b)
    decreases b - a
  {
    if a < b {
      Pow2Monotone(a, b - 1);
    }
  }

  lemma {:induction false} EncodesRest(out: string, bytes: seq<Byte>, k: nat)
    requires k <= |bytes| && Encodes(out, Bits(bytes[..k]))
    ensures Encodes(out, Bits(bytes))
    decreases |bytes| - k
  {
    if k == |bytes| {
      assert bytes[..k] == bytes;
    } else {
      assert bytes[..k + 1][..k] == bytes[..k];
      EncodesLonger(out, Bits(bytes[..k]), BitsOf(bytes[k], 8));
      EncodesRest(out, bytes, k + 1);
    }
  }

  // ---------------------------------------------------------------------------
  // What a code says
  // ---------------------------------------------------------------------------

  /** One character of the pattern `[0-9A-HJKMNP-TV-Z]`. */
  predicate IsCodeCharacter(c: char) {
    '0' <= c <= '9' || 'A' <= c <= 'H' || c == 'J' || c == 'K' || c == 'M' || c == 'N' || 'P' <= c <= 'T' || 'V' <= c <= 'Z'
  }

  predicate ValidCode(code: string) {
    |code| == CODE_LENGTH && forall i :: 0 <= i < |code| ==> IsCodeCharacter(code[i])
  }

  lemma {:induction false} AlphabetIncreases(i: nat, j: nat)
    requires i < j < |ALPHABET|
    ensures ALPHABET[i] < ALPHABET[j]
    decreases j
  {
    if i < j - 1 { AlphabetIncreases(i, j - 1); }
    assert ALPHABET[j - 1] < ALPHABET[j];
  }

  lemma AlphabetDistinct(i: nat, j: nat)
    requires i < |ALPHABET| && j < |ALPHABET| && ALPHABET[i] == ALPHABET[j]
    ensures i == j
  {
    if i < j { AlphabetIncreases(i, j); } else if j < i { AlphabetIncreases(j, i); }
  }

  lemma EncodedIsValid(code: string, bits: seq<Bit>)
    requires Encodes(code, bits) && |code| == CODE_LENGTH
    ensures ValidCode(code)
  {
    forall i | 0 <= i < |code|
      ensures IsCodeCharacter(code[i])
    {
      ValueBound(Group(bits, i));
      assert Pow2(5) == 32;
    }
  }

  /** Two digests get the same code exactly when their first 50 bits agree. */
  lemma CodesTellDigestsApart(a: seq<Bit>, b: seq<Bit>, codeA: string, codeB: string)
    requires Encodes(codeA, a) && Encodes(codeB, b) && |codeA| == |codeB| == CODE_LENGTH
    ensures codeA == codeB <==> a[..50] == b[..50]
  {
    if codeA == codeB {
      forall k | 0 <= k < 50
        ensures a[k] == b[k]
      {
        SameCharacter(Group(a, k / 5), Group(b, k / 5));
        assert Group(a, k / 5)[k % 5] == Group(b, k / 5)[k % 5];
      }
    }
    if a[..50] == b[..50] {
      forall i | 0 <= i < CODE_LENGTH
        ensures codeA[i] == codeB[i]
      {
        assert Group(a, i) == a[..50][5 * i..5 * i + 5] == Group(b, i);
      }
      assert codeA == codeB;
    }
  }

  lemma SameCharacter(a: seq<Bit>, b: seq<Bit>)
    requires |a| == |b| == 5 && Character(a) == Character(b)
    ensures a == b
  {
    ValueBound(a);
    ValueBound(b);
    assert Pow2(5) == 32;
    AlphabetDistinct(Value(a), Value(b));
    ValueInjective(a, b);
  }

  // ---------------------------------------------------------------------------
  // Typed codes
  // ---------------------------------------------------------------------------

  /** `toUpperCase` of one character: ASCII letters, and the few other characters
      whose upper-case form is written in ASCII letters. Any other character keeps
      a form no code contains. */
  function UpperCase(c: char): string {
    if 'a' <= c <= 'z' then [c - 'a' + 'A']
    else if c == '\U{00DF}' then "SS"
    else if c == '\U{0131}' then "I"
    else if c == '\U{017F}' then "S"
    else if c == '\U{FB00}' then "FF"
    else if c == '\U{FB01}' then "FI"
    else if c == '\U{FB02}' then "FL"
    else if c == '\U{FB03}' then "FFI"
    else if c == '\U{FB04}' then "FFL"
    else if c == '\U{FB05}' || c == '\U{FB06}' then "ST"
    else [c]
  }

  /** White space as the pattern `\s` has it, and the hyphen. */
  predicate IsSeparator(c: char) {
    c == '-' || c == ' ' || '\t' <= c <= '\r' || c == '\U{00A0}' || c == '\U{1680}' || '\U{2000}' <= c <= '\U{200A}'
    || c == '\U{2028}' || c == '\U{2029}' || c == '\U{202F}' || c == '\U{205F}' || c == '\U{3000}' || c == '\U{FEFF}'
  }

  function Upper(s: string): string {
    if s == "" then "" else UpperCase(s[0]) + Upper(s[1..])
  }

  function Strip(s: string): string {
    if s == "" then "" else (if IsSeparator(s[0]) then "" else [s[0]]) + Strip(s[1..])
  }

  function FoldLookAlike(c: char): char {
    if c == 'O' then '0' else if c == 'I' || c == 'L' then '1' else c
  }

  function Fold(s: string): string {
    seq(|s|, i requires 0 <= i < |s| => FoldLookAlike(s[i]))
  }

  function NormalizeCheckInCode(input: string): Option<string> {
    var cleaned := Fold(Strip(Upper(input)));
    if ValidCode(cleaned) then Some(cleaned) else None
  }

  function FormatCheckInCode(code: string): string
    requires ValidCode(code)
  {
    code[..5] + ("-" + code[5..])
  }

  /** `c` is a way to type the code character `d`: either case, or a look-alike. */
  predicate TypedAs(c: char, d: char) {
    c == d || ('A' <= d <= 'Z' && c == d - 'A' + 'a')
    || (d == '0' && (c == 'O' || c == 'o')) || (d == '1' && (c == 'I' || c == 'i' || c == 'L' || c == 'l'))
  }

  /** `c` alone is a way to type the code characters `word`: one of them, or the few
      letters outside ASCII that stand for several. */
  predicate Types(c: char, word: string) {
    (|word| == 1 && TypedAs(c, word[0]))
    || (c == '\U{00DF}' && word == "SS") || (c == '\U{0131}' && word == "1") || (c == '\U{017F}' && word == "S")
    || (c == '\U{FB00}' && word == "FF") || ((c == '\U{FB01}' || c == '\U{FB02}') && word == "F1")
    || ((c == '\U{FB03}' || c == '\U{FB04}') && word == "FF1") || ((c == '\U{FB05}' || c == '\U{FB06}') && word == "ST")
  }

  /** `s` types the characters of `code` in order, with any separators anywhere. */
  predicate Spells(s: string, code: string) {
    if s == "" then code == ""
    else if IsSeparator(s[0]) then Spells(s[1..], code)
    else exists n :: 0 < n <= |code| && Types(s[0], code[..n]) && Spells(s[1..], code[n..])
  }

  function Cleaned(s: string): string {
    Fold(Strip(Upper(s)))
  }

  lemma {:induction false} StripAppend(a: string, b: string)
    ensures Strip(a + b) == Strip(a) + Strip(b)
    decreases |a|
  {
    if a == "" {
      assert a + b == b;
    } else {
      assert (a + b)[1..] == a[1..] + b;
      StripAppend(a[1..], b);
    }
  }

  lemma CleanedCons(s: string)
    requires s != ""
    ensures Cleaned(s) == Fold(Strip(UpperCase(s[0]))) + Cleaned(s[1..])
  {
    var first, rest := UpperCase(s[0]), Upper(s[1..]);
    assert Upper(s) == first + rest;
    StripAppend(first, rest);
  }

  /** What one character contributes to the cleaned text. */
  function Reading(c: char): string {
    Fold(Strip(UpperCase(c)))
  }

  lemma SeparatorsVanish(c: char)
    requires IsSeparator(c)
    ensures Reading(c) == ""
  {
    assert UpperCase(c) == [c] && [c][1..] == "";
    assert Strip([c]) == "";
  }

  lemma UpperCaseIsNoSeparator(c: char)
    requires !IsSeparator(c)
    ensures forall i :: 0 <= i < |UpperCase(c)| ==> !IsSeparator(UpperCase(c)[i])
  {
  }

  lemma ReadingOf(c: char)
    requires !IsSeparator(c)
    ensures var u := UpperCase(c); |Reading(c)| == |u| && forall i :: 0 <= i < |u| ==> Reading(c)[i] == FoldLookAlike(u[i])
  {
    UpperCaseIsNoSeparator(c);
    NoSeparators(UpperCase(c));
  }

  lemma {:induction false} NoSeparators(u: string)
    requires forall i :: 0 <= i < |u| ==> !IsSeparator(u[i])
    ensures Strip(u) == u
    decreases |u|
  {
    if u != "" { NoSeparators(u[1..]); }
  }

  /** A character contributes a word of code characters exactly when it types it. */
  lemma ReadingIsTyped(c: char, word: string)
    requires !IsSeparator(c) && IsCodeText(word) && word != ""
    ensures Reading(c) == word <==> Types(c, word)
  {
    ReadingOf(c);
    if |UpperCase(c)| == 1 {
      assert Reading(c) == [FoldLookAlike(UpperCase(c)[0])];
      assert |word| == 1 ==> word == [word[0]];
    } else {
      assert Reading(c) == Folded(c);
    }
  }

  /** The readings of the letters that stand for several. */
  function Folded(c: char): string {
    if c == '\U{00DF}' then "SS"
    else if c == '\U{FB00}' then "FF"
    else if c == '\U{FB01}' || c == '\U{FB02}' then "F1"
    else if c == '\U{FB03}' || c == '\U{FB04}' then "FF1"
    else "ST"
  }

  predicate IsCodeText(code: string) {
    forall i :: 0 <= i < |code| ==> IsCodeCharacter(code[i])
  }

  lemma CleanedStep(s: string, code: string, n: nat)
    requires s != "" && !IsSeparator(s[0]) && IsCodeText(code) && n <= |code| && n == |Reading(s[0])|
    ensures Cleaned(s) == code <==> Reading(s[0]) == code[..n] && Cleaned(s[1..]) == code[n..]
  {
    CleanedCons(s);
    assert code == code[..n] + code[n..];
    assert Cleaned(s)[..n] == Reading(s[0]) && Cleaned(s)[n..] == Cleaned(s[1..]);
  }

  lemma {:induction false} SpellsIsCleaned(s: string, code: string)
    requires IsCodeText(code)
    ensures Spells(s, code) <==> Cleaned(s) == code
    decreases |s|
  {
    if s != "" && IsSeparator(s[0]) {
      CleanedCons(s);
      SeparatorsVanish(s[0]);
      SpellsIsCleaned(s[1..], code);
    } else if s != "" {
      CleanedCons(s);
      ReadingOf(s[0]);
      forall n | 0 < n <= |code|
        ensures Types(s[0], code[..n]) && Spells(s[1..], code[n..])
           <==> Reading(s[0]) == code[..n] && Cleaned(s[1..]) == code[n..]
      {
        ReadingIsTyped(s[0], code[..n]);
        SpellsIsCleaned(s[1..], code[n..]);
      }
      if |Reading(s[0])| <= |code| { CleanedStep(s, code, |Reading(s[0])|); }
    }
  }

  /** A text is read as a code exactly when it spells that code. */
  lemma NormalizeReadsExactlySpellings(s: string, code: string)
    requires ValidCode(code)
    ensures NormalizeCheckInCode(s) == Some(code) <==> Spells(s, code)
  {
    SpellsIsCleaned(s, code);
  }

  /** `typed` is `shown` with letters in either case and separators added. */
  predicate Retyped(typed: string, shown: string) {
    if typed == "" then shown == ""
    else
      (shown != "" && TypedAs(typed[0], shown[0]) && Retyped(typed[1..], shown[1..]))
      || (IsSeparator(typed[0]) && Retyped(typed[1..], shown))
  }

  /** One character typed as shown. */
  lemma TypedStep(typed: string, code: string)
    requires typed != "" && code != "" && !IsSeparator(typed[0]) && TypedAs(typed[0], code[0]) && Spells(typed[1..], code[1..])
    ensures Spells(typed, code)
  {
    assert code[..1] == [code[0]];
    assert Types(typed[0], code[..1]) && Spells(typed[1..], code[1..]);
  }

  lemma {:induction false} RetypedRest(typed: string, code: string)
    requires IsCodeText(code) && Retyped(typed, code)
    ensures Spells(typed, code)
    decreases |typed|
  {
    if typed != "" {
      RetypedRest(typed[1..], if IsSeparator(typed[0]) then code else code[1..]);
      if !IsSeparator(typed[0]) { TypedStep(typed, code); }
    }
  }

  lemma {:induction false} RetypedSpells(typed: string, a: string, b: string)
    requires IsCodeText(a) && IsCodeText(b) && Retyped(typed, a + ("-" + b))
    ensures Spells(typed, a + b)
    decreases |typed|
  {
    if a == "" {
      assert a + ("-" + b) == "-" + b && a + b == b && ("-" + b)[1..] == b;
      if IsSeparator(typed[0]) && Retyped(typed[1..], "-" + b) {
        RetypedSpells(typed[1..], a, b);
      } else {
        RetypedRest(typed[1..], b);
      }
    } else {
      assert (a + ("-" + b))[1..] == a[1..] + ("-" + b) && (a + b)[1..] == a[1..] + b;
      RetypedSpells(typed[1..], if IsSeparator(typed[0]) then a else a[1..], b);
      if !IsSeparator(typed[0]) { TypedStep(typed, a + b); }
    }
  }

  /** Whatever is typed from a displayed code, in either case, with look-alikes and
      with extra white space or hyphens, normalises to that code. */
  lemma DisplayedCodeRoundTrips(code: string, typed: string)
    requires ValidCode(code) && Retyped(typed, FormatCheckInCode(code))
    ensures NormalizeCheckInCode(typed) == Some(code)
  {
    assert code[..5] + code[5..] == code;
    RetypedSpells(typed, code[..5], code[5..]);
    NormalizeReadsExactlySpellings(typed, code);
  }
}
