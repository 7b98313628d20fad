/** The text form of enrollment codes (broker/src/enrollment-store.ts:19-80): base 32 through a
    32-bit accumulator, grouped for display, and read back from whatever the user typed. */
module EnrollmentCodes {
  import opened Int32
  import opened Sequences

  const ALPHABET := "0123456789ABCDEFGHJKMNPQRSTVWXYZ"
  const CODE_BYTES := 20
  const CODE_LENGTH := 32
  const GROUP_SIZE := 4

  /** `ALPHABET[i]`, as arithmetic: the digits, then the letters without I, L, O and U. */
  function SymbolAt(i: int): char
    requires 0 <= i < 32
  {
    (if i < 10 then 48 + i else if i < 18 then 55 + i else if i < 20 then 56 + i
     else if i < 22 then 57 + i else if i < 27 then 58 + i else 59 + i) as char
  }

  predicate IsSymbol(c: char) {
    '0' <= c <= '9' || 'A' <= c <= 'H' || c == 'J' || c == 'K' || c == 'M' || c == 'N' || 'P' <= c <= 'T'
      || 'V' <= c <= 'Z'
  }

  ghost function SymbolValue(c: char): nat
    requires IsSymbol(c)
  {
    var n := c as int;
    if n < 58 then n - 48 else if n < 73 then n - 55 else if n < 76 then n - 56
    else if n < 79 then n - 57 else if n < 85 then n - 58 else n - 59
  }

  lemma AlphabetIsSymbols()
    ensures |ALPHABET| == 32
    ensures forall i :: 0 <= i < 32 ==> ALPHABET[i] == SymbolAt(i)
    ensures forall c :: IsSymbol(c) <==> c in ALPHABET
  {
    forall c | IsSymbol(c) ensures c in ALPHABET {
      assert ALPHABET[SymbolValue(c)] == c;
    }
  }

  predicate IsCode(s: string) { |s| == CODE_LENGTH && forall i :: 0 <= i < |s| ==> IsSymbol(s[i]) }

  // ---------- numbers written in base 256 and base 32 ----------

  ghost function Base256(bytes: seq<Byte>): nat {
    if bytes == [] then 0 else Base256(bytes[..|bytes| - 1]) * 256 + bytes[|bytes| - 1]
  }

  /** The last `n` base-32 digits of `v`, most significant first. */
  ghost function Symbols(v: nat, n: nat): string {
    if n == 0 then "" else Symbols(v / 32, n - 1) + [SymbolAt(v % 32)]
  }

  ghost function Base32(s: string): nat
    requires forall i :: 0 <= i < |s| ==> IsSymbol(s[i])
  {
    if s == "" then 0 else Base32(s[..|s| - 1]) * 32 + SymbolValue(s[|s| - 1])
  }

  ghost function Pow32(n: nat): nat { if n == 0 then 1 else 32 * Pow32(n - 1) }

  /** `Symbols` writes digits that `Base32` reads back. */
  lemma {:induction false} SymbolsValue(v: nat, n: nat)
    requires v < Pow32(n)
    ensures |Symbols(v, n)| == n && (forall i :: 0 <= i < n ==> IsSymbol(Symbols(v, n)[i]))
    ensures Base32(Symbols(v, n)) == v
  {
    if n > 0 {
      SymbolsValue(v / 32, n - 1);
      var s := Symbols(v, n);
      assert s[..n - 1] == Symbols(v / 32, n - 1);
    }
  }

  lemma {:induction false} Base256Injective(a: seq<Byte>, b: seq<Byte>)
    requires |a| == |b| && Base256(a) == Base256(b)
    ensures a == b
  {
    if a != [] {
      var n := |a|;
      LastDigit(Base256(a[..n - 1]), a[n - 1], Base256(b[..n - 1]), b[n - 1]);
      Base256Injective(a[..n - 1], b[..n - 1]);
      assert a == a[..n - 1] + [a[n - 1]] && b == b[..n - 1] + [b[n - 1]];
    }
  }

  lemma LastDigit(x: nat, c: Byte, y: nat, d: Byte)
    requires x * 256 + c == y * 256 + d
    ensures x == y && c == d
  {}

  // ---------- encodeBase32 ----------

  /** Five bits a symbol, rounded up. */
  function SymbolCount(bytes: nat): nat { (8 * bytes + 4) / 5 }

  /** How many zero bits complete the last symbol. */
  function Padding(bytes: nat): nat { 5 * SymbolCount(bytes) - 8 * bytes }

  ghost function Padded(v: nat, padding: nat, n: nat): string {
    DoubleNat(v, padding);
    Symbols(Double(v, padding), n)
  }

  ghost function Encoded(bytes: seq<Byte>): string {
    Padded(Base256(bytes), Padding(|bytes|), SymbolCount(|bytes|))
  }

  lemma DoubleNat(v: nat, k: nat)
    ensures Double(v, k) >= v
  {}

  lemma HalveNat(v: nat, k: nat)
    ensures Halve(v, k) >= 0
  {}

  lemma Mod32Plus(a: int, d: int)
    ensures (a + 32 * d) % 32 == a % 32
  {}

  /** Five bits read from a number do not change when a multiple of 2^32 is added to it. */
  lemma ReadFiveBits(u: int, q: int, k: nat)
    requires k <= 7
    ensures Halve(u + TWO_TO_32 * q, k) % 32 == Halve(u, k) % 32
  {
    var d := Double(q, 27 - k);
    WrapIsMultiple(q, k);
    HalveCongruent(u, 32, d, k);
    Mod32Plus(Halve(u, k), d);
  }

  /** The accumulator has wrapped, but the bits that are read have not. */
  lemma ReadSymbol(v: nat, value: int, k: nat)
    requires k <= 7 && ToUint32(value) == v % TWO_TO_32
    ensures Shr(value, k) % 32 == Halve(v, k) % 32
  {
    ReadFiveBits(ToUint32(value), v / TWO_TO_32, k);
  }

  lemma AppendByte(v: nat, value: int, byte: Byte)
    requires ToUint32(value) == v % TWO_TO_32
    ensures Shl(value, 8) % 256 == 0
    ensures ToUint32(Shl(value, 8) + byte) == (v * 256 + byte) % TWO_TO_32
  {
    var m := ShiftedByte(v, value);
    SameModulo(v * 256 + byte, m);
  }

  /** A shift by eight wraps to a number a multiple of 2^32 away. */
  lemma ShiftedByte(v: nat, value: int) returns (m: int)
    requires ToUint32(value) == v % TWO_TO_32
    ensures Shl(value, 8) % 256 == 0 && Shl(value, 8) == v * 256 + TWO_TO_32 * m
  {
    HalveIsDiv(value);
    WrapIsCongruent(256 * value);
    var d := Apart(v, value);
    m := 256 * d - (256 * value + TWO_TO_31) / TWO_TO_32;
  }

  /** Numbers with one remainder lie a multiple of 2^32 apart. */
  lemma Apart(v: int, value: int) returns (d: int)
    requires value % TWO_TO_32 == v % TWO_TO_32
    ensures value == v + TWO_TO_32 * d
  {
    d := value / TWO_TO_32 - v / TWO_TO_32;
  }

  lemma WrapIsCongruent(x: int)
    ensures ToInt32(x) == x - TWO_TO_32 * ((x + TWO_TO_31) / TWO_TO_32)
    ensures x % 256 == 0 ==> ToInt32(x) % 256 == 0
  {
    var k := (x + TWO_TO_31) / TWO_TO_32;
    if x % 256 == 0 { assert ToInt32(x) == 256 * (x / 256 - 0x100_0000 * k); }
  }

  lemma SameModulo(x: int, k: int)
    ensures (x + TWO_TO_32 * k) % TWO_TO_32 == x % TWO_TO_32
  {}

  /** Splitting one more symbol off a number of which `bits` low bits are not yet written. */
  lemma OneMoreSymbol(v: nat, bits: nat, n: nat)
    requires bits >= 5 && Halve(v, bits - 5) >= 0 && Halve(v, bits) >= 0
    ensures Symbols(Halve(v, bits - 5), n + 1) == Symbols(Halve(v, bits), n) + [SymbolAt(Halve(v, bits - 5) % 32)]
  {
    HalvePlus(v, bits - 5, 5);
    HalveIsDiv(Halve(v, bits - 5));
  }

  lemma LastSymbol(v: nat, value: int, bits: nat)
    requires 0 < bits < 5 && ToUint32(value) == v % TWO_TO_32
    ensures Shl(value, 5 - bits) % 32 == Double(v, 5 - bits) % 32
    ensures Double(v, 5 - bits) / 32 == Halve(v, bits)
  {
    SmallShifts(v);
    var d := value / TWO_TO_32 - v / TWO_TO_32;
    DoublePlusMultiple(v, d, 5 - bits);
    var w := Double(v, 5 - bits);
    WrapMod32(w + TWO_TO_32 * Double(d, 5 - bits));
    Mod32Plus(w, 0x800_0000 * Double(d, 5 - bits));
  }

  lemma WrapMod32(x: int)
    ensures ToInt32(x) % 32 == x % 32
  {
    Mod32Plus(x, -0x800_0000 * ((x + TWO_TO_31) / TWO_TO_32));
  }

  lemma {:induction false} DoublePlusMultiple(v: int, d: int, k: nat)
    ensures Double(v + TWO_TO_32 * d, k) == Double(v, k) + TWO_TO_32 * Double(d, k)
  {
    if k > 0 { DoublePlusMultiple(v, d, k - 1); }
  }

  method EncodeBase32(bytes: seq<Byte>) returns (output: string)
    ensures output == Encoded(bytes)
  {
    var bits: nat := 0;
    var value: int := 0;
    output := "";
    ghost var v: nat := 0;
    for k := 0 to |bytes|
      invariant 0 <= bits < 5 && 5 * |output| + bits == 8 * k
      invariant v == Base256(bytes[..k]) && Written(output, v, value, bits)
    {
      assert bytes[..k + 1][..k] == bytes[..k];
      ReadByte(output, v, value, bits, bytes[k]);
      v := v * 256 + bytes[k];
      value := Or(Shl(value, 8), bytes[k], 256);
      bits := bits + 8;
      while bits >= 5
        invariant 0 <= bits <= 12 && 5 * |output| + bits == 8 * (k + 1)
        invariant Written(output, v, value, bits)
      {
        WriteSymbol(output, v, value, bits);
        output := output + [SymbolAt(Shr(value, bits - 5) % 32)];
        bits := bits - 5;
      }
    }
    assert bytes[..|bytes|] == bytes;
    FinishEncoding(bytes, output, value, bits);
    if bits > 0 {
      output := output + [SymbolAt(Shl(value, 5 - bits) % 32)];
    }
  }

  /** All but the `bits` low bits of `v` are in `output`, and the wrapped accumulator still has those. */
  ghost predicate Written(output: string, v: nat, value: int, bits: nat) {
    && ToUint32(value) == v % TWO_TO_32
    && Halve(v, bits) >= 0
    && output == Symbols(Halve(v, bits), |output|)
  }

  lemma FinishEncoding(bytes: seq<Byte>, output: string, value: int, bits: nat)
    requires bits < 5 && 5 * |output| + bits == 8 * |bytes| && Written(output, Base256(bytes), value, bits)
    ensures Encoded(bytes) == if bits == 0 then output else output + [SymbolAt(Shl(value, 5 - bits) % 32)]
  {
    assert SymbolCount(|bytes|) == if bits == 0 then |output| else |output| + 1;
    if bits > 0 { PadLastSymbol(Base256(bytes), output, value, bits); }
  }

  lemma PadLastSymbol(v: nat, output: string, value: int, bits: nat)
    requires 0 < bits < 5 && Written(output, v, value, bits)
    ensures Padded(v, 5 - bits, |output| + 1) == output + [SymbolAt(Shl(value, 5 - bits) % 32)]
  {
    DoubleNat(v, 5 - bits);
    LastSymbol(v, value, bits);
    SymbolsUnfold(Double(v, 5 - bits), |output|);
  }

  lemma SymbolsUnfold(v: nat, n: nat)
    ensures Symbols(v, n + 1) == Symbols(v / 32, n) + [SymbolAt(v % 32)]
  {}

  lemma ReadByte(output: string, v: nat, value: int, bits: nat, byte: Byte)
    requires Written(output, v, value, bits)
    ensures Shl(value, 8) % 256 == 0
    ensures Written(output, v * 256 + byte, Shl(value, 8) + byte, bits + 8)
  {
    AppendByte(v, value, byte);
    HalvePlus(v * 256 + byte, 8, bits);
    HalveIsDiv(v * 256 + byte);
  }

  lemma WriteSymbol(output: string, v: nat, value: int, bits: nat)
    requires 5 <= bits <= 12 && Written(output, v, value, bits)
    ensures Written(output + [SymbolAt(Shr(value, bits - 5) % 32)], v, value, bits - 5)
  {
    HalveNat(v, bits - 5);
    ReadSymbol(v, value, bits - 5);
    OneMoreSymbol(v, bits, |output|);
  }

  lemma {:induction false} Base256Bound(bytes: seq<Byte>)
    ensures Base256(bytes) < Pow256(|bytes|)
  {
    if bytes != [] { Base256Bound(bytes[..|bytes| - 1]); }
  }

  ghost function Pow256(n: nat): nat { if n == 0 then 1 else 256 * Pow256(n - 1) }

  /** Twenty bytes are as many bits as thirty-two symbols. */
  lemma TwentyBytes()
    ensures Pow256(CODE_BYTES) == Pow32(CODE_LENGTH)
  {
    FiveBytes(0); FiveBytes(5); FiveBytes(10); FiveBytes(15);
    EightSymbols(0); EightSymbols(8); EightSymbols(16); EightSymbols(24);
  }

  lemma FiveBytes(n: nat)
    ensures Pow256(n + 5) == 0x100_0000_0000 * Pow256(n)
  {
    assert Pow256(n + 2) == 256 * Pow256(n + 1) == 65536 * Pow256(n);
    assert Pow256(n + 4) == 256 * Pow256(n + 3) == 65536 * Pow256(n + 2);
  }

  lemma EightSymbols(n: nat)
    ensures Pow32(n + 8) == 0x100_0000_0000 * Pow32(n)
  {
    assert Pow32(n + 2) == 1024 * Pow32(n);
    assert Pow32(n + 4) == 1024 * Pow32(n + 2);
    assert Pow32(n + 6) == 1024 * Pow32(n + 4);
  }

  /** Bytes that fill their symbols become the digits of their number. */
  lemma CodeOfBytes(bytes: seq<Byte>, n: nat)
    requires Padding(|bytes|) == 0 && SymbolCount(|bytes|) == n && Base256(bytes) < Pow32(n)
    ensures |Encoded(bytes)| == n && (forall i :: 0 <= i < n ==> IsSymbol(Encoded(bytes)[i]))
    ensures Base32(Encoded(bytes)) == Base256(bytes)
  {
    assert Double(Base256(bytes), 0) == Base256(bytes);
    SymbolsValue(Base256(bytes), n);
  }

  lemma DrawBound(bytes: seq<Byte>)
    requires |bytes| == CODE_BYTES
    ensures Base256(bytes) < Pow32(CODE_LENGTH)
  {
    Base256Bound(bytes);
    TwentyBytes();
  }

  /** A draw becomes 32 symbols whose base-32 value is the draw's base-256 value. */
  lemma CodeOfDraw(bytes: seq<Byte>)
    requires |bytes| == CODE_BYTES
    ensures IsCode(Encoded(bytes)) && Base32(Encoded(bytes)) == Base256(bytes)
  {
    DrawBound(bytes);
    CodeOfBytes(bytes, CODE_LENGTH);
  }

  lemma DistinctDrawsDistinctCodes(a: seq<Byte>, b: seq<Byte>)
    requires |a| == |b| == CODE_BYTES && a != b
    ensures Encoded(a) != Encoded(b)
  {
    CodeOfDraw(a);
    CodeOfDraw(b);
    if Base256(a) == Base256(b) { Base256Injective(a, b); }
  }

  // ---------- group and normalise ----------

  function Grouped(code: string): string {
    if |code| <= GROUP_SIZE then code else code[..GROUP_SIZE] + "-" + Grouped(code[GROUP_SIZE..])
  }

  /** Four symbols, a dash, and so on: every fifth character is a dash and the others are the code's in order. */
  lemma {:induction false} GroupedShape(code: string)
    requires code != ""
    ensures
      var shown := Grouped(code);
      && |shown| == |code| + (|code| - 1) / 4
      && forall i :: 0 <= i < |shown| ==> i - i / 5 < |code| && shown[i] == if i % 5 == 4 then '-' else code[i - i / 5]
    decreases |code|
  {
    if |code| > GROUP_SIZE {
      var rest := Grouped(code[GROUP_SIZE..]);
      GroupedShape(code[GROUP_SIZE..]);
      var shown := Grouped(code);
      assert shown == code[..GROUP_SIZE] + "-" + rest;
      forall i | 5 <= i < |shown|
        ensures i - i / 5 < |code| && shown[i] == if i % 5 == 4 then '-' else code[i - i / 5]
      {
        FiveBack(i);
        assert shown[i] == rest[i - 5];
        assert i % 5 != 4 ==> code[GROUP_SIZE..][i - 5 - (i - 5) / 5] == code[i - i / 5];
      }
    }
  }

  lemma FiveBack(i: nat)
    requires i >= 5
    ensures (i - 5) % 5 == i % 5 && (i - 5) / 5 == i / 5 - 1 && i - 5 - (i - 5) / 5 == i - i / 5 - 4
  {}

  function Join(parts: seq<string>): string {
    if parts == [] then "" else if |parts| == 1 then parts[0] else parts[0] + "-" + Join(parts[1..])
  }

  lemma {:induction false} JoinAppend(parts: seq<string>, last: string)
    ensures Join(parts + [last]) == if parts == [] then last else Join(parts) + "-" + last
  {
    if parts != [] {
      assert (parts + [last])[1..] == parts[1..] + [last];
      JoinAppend(parts[1..], last);
    }
  }

  lemma ShiftedSlices(s: string, k: nat, i: nat, j: nat)
    requires k <= i <= j <= |s|
    ensures s[k..][..i - k] == s[..i][k..] && s[k..][..j - k] == s[..j][k..] && s[k..][i - k..j - k] == s[i..j]
    ensures s[..i][..k] == s[..k] && s[..j][..k] == s[..k]
  {}

  lemma {:induction false} GroupedAppend(code: string, index: nat)
    requires index < |code| && index % GROUP_SIZE == 0
    ensures Grouped(code[..index]) + (if index == 0 then "" else "-") + code[index..Min(index + GROUP_SIZE, |code|)]
         == Grouped(code[..Min(index + GROUP_SIZE, |code|)])
  {
    var end := Min(index + GROUP_SIZE, |code|);
    if index > GROUP_SIZE {
      GroupedAppend(code[GROUP_SIZE..], index - GROUP_SIZE);
      ShiftedSlices(code, GROUP_SIZE, index, end);
      Associative(code[..GROUP_SIZE] + "-", Grouped(code[..index][GROUP_SIZE..]) + "-", code[index..end]);
    } else if index == GROUP_SIZE {
      assert code[..end][..GROUP_SIZE] == code[..index];
      assert code[..end][GROUP_SIZE..] == code[index..end];
    }
  }

  method Group(code: string) returns (text: string)
    ensures text == Grouped(code)
  {
    var parts: seq<string> := [];
    var index := 0;
    while index < |code|
      invariant index % GROUP_SIZE == 0 && (parts == [] <==> index == 0)
      invariant Join(parts) == Grouped(code[..Min(index, |code|)])
    {
      GroupedAppend(code, index);
      JoinAppend(parts, code[index..Min(index + GROUP_SIZE, |code|)]);
      parts := parts + [code[index..Min(index + GROUP_SIZE, |code|)]];
      index := index + GROUP_SIZE;
    }
    assert code[..|code|] == code;
    text := Join(parts);
  }

  predicate IsAscii(c: char) { c as int < 128 }

  predicate IsDigitOrCapital(c: char) { '0' <= c <= '9' || 'A' <= c <= 'Z' }

  /** `toUpperCase` of one character; what it makes of a character beyond ASCII is left open. */
  function Upper(beyond: char -> string, c: char): string {
    if !IsAscii(c) then beyond(c) else if 'a' <= c <= 'z' then [(c as int - 32) as char] else [c]
  }

  function UpperCase(beyond: char -> string, s: string): string {
    if s == "" then "" else Upper(beyond, s[0]) + UpperCase(beyond, s[1..])
  }

  function Strip(s: string): string {
    if s == "" then "" else (if IsDigitOrCapital(s[0]) then [s[0]] else "") + Strip(s[1..])
  }

  /** The canonical code, or "" when malformed. */
  function Normalise(beyond: char -> string, text: string): string {
    var canonical := Strip(UpperCase(beyond, text));
    if |canonical| != CODE_LENGTH then ""
    else if exists i :: 0 <= i < |canonical| && !IsSymbol(canonical[i]) then ""
    else canonical
  }

  predicate SameLetter(typed: char, c: char) {
    typed == c || ('a' <= typed <= 'z' && 'A' <= c <= 'Z' && typed as int == c as int + 32)
  }

  predicate IsSeparator(c: char) {
    IsAscii(c) && !IsDigitOrCapital(c) && !('a' <= c <= 'z')
  }

  /** `text` is `code` with letters in either case and any ASCII separators anywhere; a character beyond ASCII
      stands for the digits and capitals in what it becomes in upper case, usually none. */
  predicate Retypes(beyond: char -> string, text: string, code: string) {
    if text == "" then code == ""
    else if IsSeparator(text[0]) then Retypes(beyond, text[1..], code)
    else if IsAscii(text[0]) then code != "" && SameLetter(text[0], code[0]) && Retypes(beyond, text[1..], code[1..])
    else
      var letters := Strip(beyond(text[0]));
      letters <= code && Retypes(beyond, text[1..], code[|letters|..])
  }

  lemma {:induction false} StripPlus(s: string, t: string)
    ensures Strip(s + t) == Strip(s) + Strip(t)
  {
    if s == "" { assert s + t == t; }
    else {
      assert (s + t)[1..] == s[1..] + t && (s + t)[0] == s[0];
      StripPlus(s[1..], t);
      Associative(if IsDigitOrCapital(s[0]) then [s[0]] else "", Strip(s[1..]), Strip(t));
    }
  }

  lemma SymbolsAreCapitals(c: char)
    requires IsSymbol(c)
    ensures IsDigitOrCapital(c)
  {}

  lemma {:induction false} StripIsRetyping(beyond: char -> string, text: string, code: string)
    requires forall i :: 0 <= i < |code| ==> IsDigitOrCapital(code[i])
    ensures Strip(UpperCase(beyond, text)) == code <==> Retypes(beyond, text, code)
  {
    if text != "" {
      var letters, rest := Strip(Upper(beyond, text[0])), Strip(UpperCase(beyond, text[1..]));
      StripPlus(Upper(beyond, text[0]), UpperCase(beyond, text[1..]));
      OneLetter(beyond, text[0]);
      CutOff(letters, rest, code);
      if letters <= code { StripIsRetyping(beyond, text[1..], code[|letters|..]); }
      assert code[0..] == code;
    }
  }

  lemma OneLetter(beyond: char -> string, c: char)
    ensures IsAscii(c) ==> Strip(Upper(beyond, c)) == if IsSeparator(c) then "" else Upper(beyond, c)
    ensures IsAscii(c) && !IsSeparator(c) ==> |Upper(beyond, c)| == 1
    ensures IsAscii(c) && !IsSeparator(c) ==>
      forall d :: IsDigitOrCapital(d) ==> (Upper(beyond, c)[0] == d <==> SameLetter(c, d))
  {
    if IsAscii(c) { assert Upper(beyond, c)[1..] == ""; }
  }

  lemma CutOff(head: string, tail: string, code: string)
    ensures head + tail == code <==> head <= code && tail == code[|head|..]
  {
    if head <= code { assert code == head + code[|head|..]; }
  }

  /** Exactly the retypings of a code are read back as that code. */
  lemma NormaliseReadsRetypings(beyond: char -> string, text: string, code: string)
    requires IsCode(code)
    ensures Normalise(beyond, text) == code <==> Retypes(beyond, text, code)
  {
    forall i | 0 <= i < |code| ensures IsDigitOrCapital(code[i]) { SymbolsAreCapitals(code[i]); }
    StripIsRetyping(beyond, text, code);
  }

  lemma {:induction false} GroupedRetypes(beyond: char -> string, code: string)
    requires forall i :: 0 <= i < |code| ==> IsDigitOrCapital(code[i])
    ensures Retypes(beyond, Grouped(code), code)
    decreases |code|
  {
    if |code| <= GROUP_SIZE {
      RetypesItself(beyond, code, "", "");
      assert code + "" == code;
    } else {
      GroupedRetypes(beyond, code[GROUP_SIZE..]);
      var rest := "-" + Grouped(code[GROUP_SIZE..]);
      assert rest[1..] == Grouped(code[GROUP_SIZE..]);
      RetypesItself(beyond, code[..GROUP_SIZE], rest, code[GROUP_SIZE..]);
      assert code[..GROUP_SIZE] + code[GROUP_SIZE..] == code;
      assert Grouped(code) == code[..GROUP_SIZE] + rest;
    }
  }

  lemma {:induction false} RetypesItself(beyond: char -> string, prefix: string, text: string, code: string)
    requires forall i :: 0 <= i < |prefix| ==> IsDigitOrCapital(prefix[i])
    requires Retypes(beyond, text, code)
    ensures Retypes(beyond, prefix + text, prefix + code)
  {
    if prefix == "" {
      assert prefix + text == text && prefix + code == code;
    } else {
      RetypesItself(beyond, prefix[1..], text, code);
      OneRetyped(beyond, prefix[0], prefix[1..] + text, prefix[1..] + code);
      Associative([prefix[0]], prefix[1..], text);
      Associative([prefix[0]], prefix[1..], code);
      assert prefix == [prefix[0]] + prefix[1..];
    }
  }

  lemma OneRetyped(beyond: char -> string, c: char, text: string, code: string)
    requires IsDigitOrCapital(c) && Retypes(beyond, text, code)
    ensures Retypes(beyond, [c] + text, [c] + code)
  {
    assert ([c] + text)[1..] == text && ([c] + code)[1..] == code;
  }

  /** What the operator is shown for a draw is read back as the code of that draw and no other. */
  lemma ShownCodeRoundTrip(beyond: char -> string, draw: seq<Byte>, other: seq<Byte>)
    requires |draw| == |other| == CODE_BYTES
    ensures Normalise(beyond, Grouped(Encoded(draw))) == Encoded(draw)
    ensures Normalise(beyond, Grouped(Encoded(draw))) == Encoded(other) <==> draw == other
  {
    var code := Encoded(draw);
    CodeOfDraw(draw);
    forall i | 0 <= i < |code| ensures IsDigitOrCapital(code[i]) { SymbolsAreCapitals(code[i]); }
    GroupedRetypes(beyond, code);
    NormaliseReadsRetypings(beyond, Grouped(code), code);
    if draw != other { DistinctDrawsDistinctCodes(draw, other); }
  }
}
