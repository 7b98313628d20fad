/** Unpadded base64url (src/auth/device-identity.ts:49-85; section 5 of RFC 4648): the two loops, the
    groups they compute, what those groups mean bit by bit, and the round trips.

    Shift amounts are small constants here, so JavaScript's 32-bit operators are the operators of `bv32`:
    a left shift drops what leaves the word. */
module Base64Url {
  import opened Sequences
  import opened Terms

  type Octet = bv8
  type Sextet = bv6

  const UPPER := "ABCDEFGHIJKLMNOPQRSTUVWXYZ"
  const LOWER := "abcdefghijklmnopqrstuvwxyz"
  const DIGITS := "0123456789"
  const BASE64_ALPHABET := UPPER + LOWER + DIGITS + "+/"

  /** `BASE64_ALPHABET[v]`, as arithmetic. */
  function Symbol(v: Sextet): char {
    var n := v as int;
    if n < 26 then (65 + n) as char else if n < 52 then (71 + n) as char
    else if n < 62 then (n - 4) as char else if n == 62 then '+' else '/'
  }

  /** `BASE64_ALPHABET.indexOf(c)` */
  function IndexOf(c: char): (n: int)
    ensures -1 <= n < 64
  {
    if 'A' <= c <= 'Z' then c as int - 65 else if 'a' <= c <= 'z' then c as int - 71
    else if '0' <= c <= '9' then c as int + 4 else if c == '+' then 62 else if c == '/' then 63 else -1
  }

  lemma AlphabetIsSymbols(v: Sextet)
    ensures |BASE64_ALPHABET| == 64 && BASE64_ALPHABET[v as int] == Symbol(v)
  {
    var n := v as int;
    if n < 26 { assert UPPER[n] == (65 + n) as char; }
    else if n < 52 { assert LOWER[n - 26] == (71 + n) as char; }
    else if n < 62 { assert DIGITS[n - 52] == (n - 4) as char; }
  }

  function ToUrlChar(c: char): char { if c == '+' then '-' else if c == '/' then '_' else c }
  function FromUrlChar(c: char): char { if c == '-' then '+' else if c == '_' then '/' else c }

  /** The characters the source's pattern admits. */
  predicate IsUrlChar(c: char) { 'A' <= c <= 'Z' || 'a' <= c <= 'z' || '0' <= c <= '9' || c == '-' || c == '_' }

  predicate IsUrlText(s: string) { forall i :: 0 <= i < |s| ==> IsUrlChar(s[i]) }

  function UrlSymbol(v: Sextet): char { ToUrlChar(Symbol(v)) }

  function UrlValue(c: char): Sextet
    requires IsUrlChar(c)
  {
    IndexOf(FromUrlChar(c)) as bv6
  }

  lemma SymbolRoundTrip(v: Sextet)
    ensures IsUrlChar(UrlSymbol(v)) && UrlValue(UrlSymbol(v)) == v
  {}

  lemma CharRoundTrip(c: char)
    requires IsUrlChar(c)
    ensures UrlSymbol(UrlValue(c)) == c
  {
    IntRoundTrip(IndexOf(FromUrlChar(c)));
  }

  lemma IntRoundTrip(n: int)
    requires 0 <= n < 64
    ensures (n as bv6) as int == n
  {}

  function Text(s: seq<Sextet>): string { seq(|s|, i requires 0 <= i < |s| => UrlSymbol(s[i])) }

  function Values(s: string): seq<Sextet>
    requires IsUrlText(s)
  {
    seq(|s|, i requires 0 <= i < |s| => UrlValue(s[i]))
  }

  lemma ValuesOfText(v: seq<Sextet>)
    ensures IsUrlText(Text(v)) && Values(Text(v)) == v
  {
    forall i | 0 <= i < |v| ensures IsUrlChar(Text(v)[i]) && UrlValue(Text(v)[i]) == v[i] { SymbolRoundTrip(v[i]); }
  }

  lemma TextOfValues(s: string)
    requires IsUrlText(s)
    ensures Text(Values(s)) == s
  {
    forall i | 0 <= i < |s| ensures Text(Values(s))[i] == s[i] { CharRoundTrip(s[i]); }
  }

  // ---------- regrouping eights as sixes and sixes as eights ----------

  function First(a: Octet): Sextet { (a >> 2) as bv6 }
  function Second(a: Octet, b: Octet): Sextet { ((a & 3) as bv6 << 4) | (b >> 4) as bv6 }
  function Third(b: Octet, c: Octet): Sextet { ((b & 15) as bv6 << 2) | (c >> 6) as bv6 }
  function Fourth(c: Octet): Sextet { (c & 63) as bv6 }

  function High(p: Sextet, q: Sextet): Octet { (p as bv8 << 2) | (q as bv8 >> 4) }
  function Middle(q: Sextet, r: Sextet): Octet { ((q as bv8 & 15) << 4) | (r as bv8 >> 2) }
  function Low(r: Sextet, t: Sextet): Octet { ((r as bv8 & 3) << 6) | t as bv8 }

  function Sextets(b: seq<Octet>): seq<Sextet> {
    if |b| == 0 then []
    else if |b| == 1 then [First(b[0]), Second(b[0], 0)]
    else if |b| == 2 then [First(b[0]), Second(b[0], b[1]), Third(b[1], 0)]
    else [First(b[0]), Second(b[0], b[1]), Third(b[1], b[2]), Fourth(b[2])] + Sextets(b[3..])
  }

  function Octets(s: seq<Sextet>): seq<Octet> {
    if |s| < 2 then []
    else if |s| == 2 then [High(s[0], s[1])]
    else if |s| == 3 then [High(s[0], s[1]), Middle(s[1], s[2])]
    else [High(s[0], s[1]), Middle(s[1], s[2]), Low(s[2], s[3])] + Octets(s[4..])
  }

  lemma Regroup(a: Octet, b: Octet, c: Octet)
    ensures High(First(a), Second(a, b)) == a && Middle(Second(a, b), Third(b, c)) == b
      && Low(Third(b, c), Fourth(c)) == c
  {}

  lemma GroupBack(p: Sextet, q: Sextet, r: Sextet, t: Sextet)
    ensures First(High(p, q)) == p && Second(High(p, q), Middle(q, r)) == q
    ensures Third(Middle(q, r), Low(r, t)) == r && Fourth(Low(r, t)) == t
    ensures Second(High(p, q), 0) == q <==> q & 15 == 0
    ensures Third(Middle(q, r), 0) == r <==> r & 3 == 0
  {}

  lemma {:induction false} OctetsOfSextets(b: seq<Octet>)
    ensures Octets(Sextets(b)) == b
  {
    if |b| >= 3 {
      OctetsOfSextets(b[3..]);
      Regroup(b[0], b[1], b[2]);
      assert Sextets(b)[4..] == Sextets(b[3..]);
      assert b == [b[0], b[1], b[2]] + b[3..];
    } else if |b| == 2 {
      Regroup(b[0], b[1], 0);
    } else if |b| == 1 {
      Regroup(b[0], 0, 0);
    }
  }

  /** The bits of the last sextet that belong to no byte are zero. */
  predicate NoStrayBits(s: seq<Sextet>) {
    && (|s| % 4 == 2 ==> s[|s| - 1] & 15 == 0)
    && (|s| % 4 == 3 ==> s[|s| - 1] & 3 == 0)
  }

  lemma {:induction false} SextetsOfOctetsIff(s: seq<Sextet>)
    ensures Sextets(Octets(s)) == s <==> |s| % 4 != 1 && NoStrayBits(s)
  {
    if |s| >= 4 {
      SextetsOfOctetsIff(s[4..]);
      SextetsOfOctetsStep(s);
      StrayBitsAreLast(s);
      assert s == s[..4] + s[4..];
    } else if |s| == 3 {
      GroupBack(s[0], s[1], s[2], 0);
    } else if |s| == 2 {
      GroupBack(s[0], s[1], 0, 0);
    }
  }

  lemma SextetsOfOctetsStep(s: seq<Sextet>)
    requires |s| >= 4
    ensures Sextets(Octets(s)) == s[..4] + Sextets(Octets(s[4..]))
  {
    var a, b, c, rest := High(s[0], s[1]), Middle(s[1], s[2]), Low(s[2], s[3]), Octets(s[4..]);
    GroupBack(s[0], s[1], s[2], s[3]);
    assert Octets(s) == [a, b, c] + rest;
    SextetsOfThree(a, b, c, rest);
    assert [First(a), Second(a, b), Third(b, c), Fourth(c)] == s[..4];
  }

  lemma SextetsOfThree(a: Octet, b: Octet, c: Octet, rest: seq<Octet>)
    ensures Sextets([a, b, c] + rest) == [First(a), Second(a, b), Third(b, c), Fourth(c)] + Sextets(rest)
  {
    assert ([a, b, c] + rest)[3..] == rest;
  }

  lemma StrayBitsAreLast(s: seq<Sextet>)
    requires |s| >= 4
    ensures |s[4..]| % 4 == |s| % 4 && NoStrayBits(s) == NoStrayBits(s[4..])
  {
    assert |s| > 4 ==> s[4..][|s| - 5] == s[|s| - 1];
  }

  // ---------- what the groups mean ----------

  /** The four pairs of bits in a byte, most significant first. */
  ghost function OctetPairs(v: Octet): seq<bv2> {
    [(v >> 6) as bv2, ((v >> 4) & 3) as bv2, ((v >> 2) & 3) as bv2, (v & 3) as bv2]
  }

  /** The three pairs of bits in a sextet, most significant first. */
  ghost function SextetPairs(v: Sextet): seq<bv2> { [(v >> 4) as bv2, ((v >> 2) & 3) as bv2, (v & 3) as bv2] }

  ghost function Flatten<T>(pairs: T -> seq<bv2>, s: seq<T>): seq<bv2> {
    if s == [] then [] else pairs(s[0]) + Flatten(pairs, s[1..])
  }

  lemma FlattenAt<T>(f: T -> seq<bv2>, s: seq<T>, i: nat)
    requires i < |s|
    ensures Flatten(f, s[i..]) == f(s[i]) + Flatten(f, s[i + 1..])
  {
    assert s[i..][0] == s[i] && s[i..][1..] == s[i + 1..];
  }

  lemma FlattenThree<T>(f: T -> seq<bv2>, s: seq<T>, i: nat)
    requires i + 3 <= |s|
    ensures Flatten(f, s[i..]) == f(s[i]) + f(s[i + 1]) + f(s[i + 2]) + Flatten(f, s[i + 3..])
  {
    FlattenAt(f, s, i); FlattenAt(f, s, i + 1); FlattenAt(f, s, i + 2);
    Associative(f(s[i + 1]), f(s[i + 2]), Flatten(f, s[i + 3..]));
    Associative(f(s[i]), f(s[i + 1]) + f(s[i + 2]), Flatten(f, s[i + 3..]));
    Associative(f(s[i]), f(s[i + 1]), f(s[i + 2]));
  }

  function At(b: seq<Octet>, i: nat): Octet { if i < |b| then b[i] else 0 }

  ghost function Zeros(n: nat): seq<bv2> { seq(n, i => 0) }

  /** The cuts the two groupings make in three bytes fall at the same bits. */
  lemma GroupPairs(a: Octet, b: Octet, c: Octet)
    ensures var x, y, z := OctetPairs(a), OctetPairs(b), OctetPairs(c);
      && SextetPairs(First(a)) == [x[0], x[1], x[2]] && SextetPairs(Second(a, b)) == [x[3], y[0], y[1]]
      && SextetPairs(Third(b, c)) == [y[2], y[3], z[0]] && SextetPairs(Fourth(c)) == [z[1], z[2], z[3]]
  {}

  lemma Uncut(x: seq<bv2>, y: seq<bv2>, z: seq<bv2>)
    requires |x| == |y| == |z| == 4
    ensures [x[0], x[1], x[2]] + [x[3], y[0], y[1]] + [y[2], y[3], z[0]] + [z[1], z[2], z[3]] == x + y + z
  {}

  lemma PartialGroupPairs(a: Octet, b: Octet)
    ensures SextetPairs(First(a)) + SextetPairs(Second(a, b)) + SextetPairs(Third(b, 0))
      == OctetPairs(a) + OctetPairs(b) + Zeros(1)
    ensures SextetPairs(First(a)) + SextetPairs(Second(a, 0)) == OctetPairs(a) + Zeros(2)
  {}

  lemma FlattenGroups(f: Sextet -> seq<bv2>, g: Octet -> seq<bv2>, s: seq<Sextet>, b: seq<Octet>, zeros: seq<bv2>)
    requires |s| >= 4 && |b| >= 3 && f(s[0]) + f(s[1]) + f(s[2]) + f(s[3]) == g(b[0]) + g(b[1]) + g(b[2])
    requires Flatten(f, s[4..]) == Flatten(g, b[3..]) + zeros
    ensures Flatten(f, s) == Flatten(g, b) + zeros
  {
    FlattenFour(f, s);
    assert b[0..] == b;
    FlattenThree(g, b, 0);
    Associative(g(b[0]) + g(b[1]) + g(b[2]), Flatten(g, b[3..]), zeros);
  }

  lemma FlattenFour(f: Sextet -> seq<bv2>, s: seq<Sextet>)
    requires |s| >= 4
    ensures Flatten(f, s) == f(s[0]) + f(s[1]) + f(s[2]) + f(s[3]) + Flatten(f, s[4..])
  {
    assert s[0..] == s;
    FlattenThree(f, s, 0); FlattenAt(f, s, 3);
    Associative(f(s[0]) + f(s[1]) + f(s[2]), f(s[3]), Flatten(f, s[4..]));
  }

  lemma FlattenTwo<T>(f: T -> seq<bv2>, s: seq<T>)
    requires |s| == 2
    ensures Flatten(f, s) == f(s[0]) + f(s[1])
  {
    assert s[0..] == s && s[2..] == [];
    FlattenAt(f, s, 0); FlattenAt(f, s, 1);
    assert f(s[1]) + [] == f(s[1]);
  }

  lemma FlattenOne<T>(f: T -> seq<bv2>, s: seq<T>)
    requires |s| == 1
    ensures Flatten(f, s) == f(s[0])
  {}

  lemma FlattenLastGroup(f: Sextet -> seq<bv2>, g: Octet -> seq<bv2>, s: seq<Sextet>, b: seq<Octet>, zeros: seq<bv2>)
    requires |s| == 3 && |b| == 2 ==> f(s[0]) + f(s[1]) + f(s[2]) == g(b[0]) + g(b[1]) + zeros
    requires |s| == 2 && |b| == 1 ==> f(s[0]) + f(s[1]) == g(b[0]) + zeros
    requires |s| == |b| + 1 && 1 <= |b| <= 2
    ensures Flatten(f, s) == Flatten(g, b) + zeros
  {
    if |b| == 1 {
      FlattenOne(g, b); FlattenTwo(f, s);
    } else {
      FlattenTwo(g, b);
      assert s[0..] == s && s[3..] == [];
      FlattenThree(f, s, 0);
    }
  }

  /** Pairs of bits of no byte at the end of the encoding of `n` bytes. */
  function Padding(n: nat): nat { if n % 3 == 0 then 0 else if n % 3 == 1 then 2 else 1 }

  /** The encoding carries the very bits of the bytes, and as few zeros after them as sixes allow. */
  lemma {:induction false} SextetsCarryTheBits(b: seq<Octet>)
    ensures Flatten(SextetPairs, Sextets(b)) == Flatten(OctetPairs, b) + Zeros(Padding(|b|))
  {
    var s := Sextets(b);
    if |b| >= 3 {
      SextetsCarryTheBits(b[3..]);
      GroupPairs(b[0], b[1], b[2]);
      Uncut(OctetPairs(b[0]), OctetPairs(b[1]), OctetPairs(b[2]));
      assert Padding(|b|) == Padding(|b[3..]|) && s[4..] == Sextets(b[3..]);
      FlattenGroups(SextetPairs, OctetPairs, s, b, Zeros(Padding(|b|)));
    } else if |b| > 0 {
      PartialGroupPairs(b[0], At(b, 1));
      FlattenLastGroup(SextetPairs, OctetPairs, s, b, Zeros(Padding(|b|)));
    }
  }

  /** Whatever is decoded are the very bits of the text, from the first on, and less than a byte is left over. */
  lemma {:induction false} OctetsCarryTheBits(s: seq<Sextet>) returns (stray: seq<bv2>)
    ensures Flatten(SextetPairs, s) == Flatten(OctetPairs, Octets(s)) + stray && |stray| < 4
  {
    var b := Octets(s);
    if |s| >= 4 {
      stray := OctetsCarryTheBits(s[4..]);
      GroupBack(s[0], s[1], s[2], s[3]);
      GroupPairs(b[0], b[1], b[2]);
      Uncut(OctetPairs(b[0]), OctetPairs(b[1]), OctetPairs(b[2]));
      assert b[3..] == Octets(s[4..]);
      FlattenGroups(SextetPairs, OctetPairs, s, b, stray);
    } else if |s| == 3 {
      stray := [(s[2] & 3) as bv2];
      LastPairs(s[0], s[1], s[2]);
      FlattenLastGroup(SextetPairs, OctetPairs, s, b, stray);
    } else if |s| == 2 {
      stray := [((s[1] >> 2) & 3) as bv2, (s[1] & 3) as bv2];
      LastPairs(s[0], s[1], 0);
      FlattenLastGroup(SextetPairs, OctetPairs, s, b, stray);
    } else {
      stray := Flatten(SextetPairs, s);
      if |s| == 1 { FlattenOne(SextetPairs, s); }
    }
  }

  lemma LastPairs(p: Sextet, q: Sextet, r: Sextet)
    ensures SextetPairs(p) + SextetPairs(q) + SextetPairs(r)
         == OctetPairs(High(p, q)) + OctetPairs(Middle(q, r)) + [(r & 3) as bv2]
    ensures SextetPairs(p) + SextetPairs(q) == OctetPairs(High(p, q)) + [((q >> 2) & 3) as bv2, (q & 3) as bv2]
  {}

  // ---------- the texts ----------

  function Encode(b: seq<Octet>): string { Text(Sextets(b)) }

  function Decode(s: string): Option<seq<Octet>> { if IsUrlText(s) then Some(Octets(Values(s))) else None }

  /** Every byte string survives encoding and decoding. */
  lemma DecodeInvertsEncode(b: seq<Octet>)
    ensures Decode(Encode(b)) == Some(b)
  {
    ValuesOfText(Sextets(b));
    OctetsOfSextets(b);
  }

  /** A text survives decoding and encoding exactly when its length can occur and no stray bit is set. */
  lemma EncodeInvertsDecodeIff(s: string)
    requires IsUrlText(s)
    ensures Encode(Decode(s).value) == s <==> |s| % 4 != 1 && NoStrayBits(Values(s))
  {
    var v := Values(s);
    SextetsOfOctetsIff(v);
    TextOfValues(s);
    ValuesOfText(Sextets(Octets(v)));
  }

  // ---------- the loops ----------

  function Replace(s: string, from: char, to: char): string {
    seq(|s|, i requires 0 <= i < |s| => if s[i] == from then to else s[i])
  }

  function Symbols(s: seq<Sextet>): string { seq(|s|, i requires 0 <= i < |s| => Symbol(s[i])) }

  /** The sextets of the next group when `n` bytes are left. */
  function Group(first: Octet, second: Octet, third: Octet, n: nat): seq<Sextet> {
    if n >= 3 then [First(first), Second(first, second), Third(second, third), Fourth(third)]
    else if n == 2 then [First(first), Second(first, second), Third(second, third)]
    else [First(first), Second(first, second)]
  }

  lemma GroupIsHead(b: seq<Octet>)
    requires b != []
    ensures Sextets(b) == Group(b[0], At(b, 1), At(b, 2), |b|) + Sextets(if |b| > 3 then b[3..] else [])
  {
    assert |b| == 3 ==> b[3..] == [];
  }

  lemma SymbolsJoin(was: string, group: seq<Sextet>, rest: seq<Sextet>)
    ensures was + Symbols(group + rest) == was + Symbols(group) + Symbols(rest)
  {}

  lemma SymbolsToUrl(s: seq<Sextet>)
    ensures Replace(Replace(Symbols(s), '+', '-'), '/', '_') == Text(s)
  {}

  /** The loop's body: `first << 16 | second << 8 | third`, read back six bits at a time. */
  function TripletGroup(first: Octet, second: Octet, third: Octet, n: nat): (group: seq<Sextet>)
    ensures group == Group(first, second, third, n)
  {
    TripletGroups(first, second, third);
    var triplet := ((first as bv32) << 16) | ((second as bv32) << 8) | third as bv32;
    var p, q, r, t := ((triplet >> 18) & 63) as bv6, ((triplet >> 12) & 63) as bv6, ((triplet >> 6) & 63) as bv6,
      (triplet & 63) as bv6;
    GroupOf(p, q, r, t, first, second, third, n);
    if n >= 3 then [p, q, r, t] else if n == 2 then [p, q, r] else [p, q]
  }

  method ToBase64Url(bytes: seq<Octet>) returns (text: string)
    ensures text == Encode(bytes)
  {
    var base64 := "";
    var index := 0;
    assert bytes[0..] == bytes;
    while index < |bytes|
      invariant base64 + Symbols(Sextets(if index < |bytes| then bytes[index..] else [])) == Symbols(Sextets(bytes))
    {
      var first, second, third := bytes[index], At(bytes, index + 1), At(bytes, index + 2);
      var group := TripletGroup(first, second, third, |bytes| - index);
      ghost var rest := bytes[index..];
      assert index + 3 < |bytes| ==> rest[3..] == bytes[index + 3..];
      GroupIsHead(rest);
      SymbolsJoin(base64, group, Sextets(if |rest| > 3 then rest[3..] else []));
      base64 := base64 + Symbols(group);
      index := index + 3;
    }
    text := Replace(Replace(base64, '+', '-'), '/', '_');
    SymbolsToUrl(Sextets(bytes));
  }

  lemma TripletGroups(first: Octet, second: Octet, third: Octet)
    ensures var triplet := ((first as bv32) << 16) | ((second as bv32) << 8) | third as bv32;
      && ((triplet >> 18) & 63) as bv6 == First(first) && ((triplet >> 12) & 63) as bv6 == Second(first, second)
      && ((triplet >> 6) & 63) as bv6 == Third(second, third) && (triplet & 63) as bv6 == Fourth(third)
  {}

  lemma GroupOf(p: Sextet, q: Sextet, r: Sextet, t: Sextet, first: Octet, second: Octet, third: Octet, n: nat)
    requires p == First(first) && q == Second(first, second) && r == Third(second, third) && t == Fourth(third)
    ensures Group(first, second, third, n) == if n >= 3 then [p, q, r, t] else if n == 2 then [p, q, r] else [p, q]
  {}

  /** JavaScript's `>>`, which copies the sign bit in. */
  function Sar(x: bv32, k: nat): bv32
    decreases k
  {
    if k == 0 then x else Sar((x >> 1) | (x & 0x8000_0000), k - 1)
  }

  /** The byte that the sextet `last`, with `bits` low bits of it waiting, completes with `next`. */
  function Completed(last: Sextet, bits: nat, next: Sextet): Octet {
    if bits == 6 then High(last, next) else if bits == 4 then Middle(last, next) else Low(last, next)
  }

  /** What is still to be pushed when `bits` low bits of the sextet `last` are waiting and `s` is still to be read. */
  ghost function Remaining(last: Sextet, bits: nat, s: seq<Sextet>): seq<Octet>
    decreases |s|
  {
    if s == [] then []
    else if bits >= 2 then [Completed(last, bits, s[0])] + Remaining(s[0], bits - 2, s[1..])
    else Remaining(s[0], 6, s[1..])
  }

  lemma {:induction false} RemainingIsOctets(last: Sextet, s: seq<Sextet>)
    ensures Remaining(last, 0, s) == Octets(s)
    decreases |s|
  {
    if |s| >= 4 {
      RemainingIsOctets(s[3], s[4..]);
      assert s[3..][1..] == s[4..];
      assert Remaining(s[2], 2, s[3..]) == [Low(s[2], s[3])] + Octets(s[4..]);
    } else if |s| == 3 {
      assert s[3..] == [];
    }
    if |s| >= 3 {
      assert s[2..][1..] == s[3..];
      assert Remaining(s[1], 4, s[2..]) == [Middle(s[1], s[2])] + Remaining(s[2], 2, s[3..]);
    }
    if |s| >= 2 {
      assert s[1..][1..] == s[2..];
      assert Remaining(s[0], 6, s[1..]) == [High(s[0], s[1])] + Remaining(s[1], 4, s[2..]);
    }
  }

  lemma PaddedAt(s: string, k: nat)
    requires k < |s| && IsUrlText(s)
    ensures Replace(Replace(s, '-', '+'), '_', '/')[k] == FromUrlChar(s[k]) && IndexOf(FromUrlChar(s[k])) >= 0
  {}

  /** The loop's body: the sextet goes in at the bottom, and a byte comes out once eight bits wait. */
  method Accumulate(accumulator: bv32, bits: nat, next: Sextet) returns (after: bv32, left: nat, pushed: seq<Octet>)
    requires bits == 0 || bits == 2 || bits == 4 || bits == 6
    ensures (after & 63) as bv6 == next
    ensures left == if bits >= 2 then bits - 2 else 6
    ensures pushed == if bits >= 2 then [Completed((accumulator & 63) as bv6, bits, next)] else []
  {
    PushSextet(accumulator, next, bits);
    after := (accumulator << 6) | next as bv32;
    left := bits + 6;
    pushed := [];
    if left >= 8 {
      left := left - 8;
      pushed := [(Sar(after, left) & 255) as bv8];
    }
  }

  method FromBase64Url(value: string) returns (result: Option<seq<Octet>>)
    ensures result == Decode(value)
  {
    if !IsUrlText(value) { return None; }
    var padded := Replace(Replace(value, '-', '+'), '_', '/');
    PaddedSpells(value);
    result := ReadSymbols(padded, Values(value));
  }

  /** Each character of a text in the standard alphabet is the symbol of its sextet. */
  ghost predicate Spells(text: string, all: seq<Sextet>) {
    |text| == |all| && forall k {:trigger SpellsAt(text, all, k)} :: 0 <= k < |all| ==> SpellsAt(text, all, k)
  }

  predicate SpellsAt(text: string, all: seq<Sextet>, k: int)
    requires 0 <= k < |text| == |all|
  {
    IndexOf(text[k]) >= 0 && IndexOf(text[k]) as bv6 == all[k]
  }

  lemma PaddedSpells(value: string)
    requires IsUrlText(value)
    ensures Spells(Replace(Replace(value, '-', '+'), '_', '/'), Values(value))
  {
    var padded := Replace(Replace(value, '-', '+'), '_', '/');
    forall k | 0 <= k < |value| ensures SpellsAt(padded, Values(value), k) { PaddedAt(value, k); }
  }

  /** The loop: the 32-bit accumulator drops its oldest bits and never one that a byte still needs. */
  method ReadSymbols(padded: string, ghost all: seq<Sextet>) returns (result: Option<seq<Octet>>)
    requires Spells(padded, all)
    ensures result == Some(Octets(all))
  {
    var bytes: seq<Octet> := [];
    var accumulator: bv32 := 0;
    var bits: nat := 0;
    ghost var last: Sextet := 0;
    NothingRead(all);
    for k := 0 to |padded|
      invariant bits == 0 || bits == 2 || bits == 4 || bits == 6
      invariant (accumulator & 63) as bv6 == last
      invariant StillToRead(all, k, last, bits, bytes)
    {
      assert SpellsAt(padded, all, k);
      var index := IndexOf(padded[k]);
      if index < 0 { return None; }
      var pushed;
      OneSextet(all, k, last, bits, bytes);
      accumulator, bits, pushed := Accumulate(accumulator, bits, index as bv6);
      bytes := bytes + pushed;
      last := index as bv6;
    }
    AllRead(all, last, bits, bytes);
    result := Some(bytes);
  }

  /** The bytes so far, continued with what the sextets from the k-th on complete, are those wanted. */
  ghost predicate StillToRead(all: seq<Sextet>, k: nat, last: Sextet, bits: nat, bytes: seq<Octet>) {
    k <= |all| && bytes + Remaining(last, bits, all[k..]) == Octets(all)
  }

  lemma NothingRead(all: seq<Sextet>)
    ensures StillToRead(all, 0, 0, 0, [])
  {
    RemainingIsOctets(0, all);
    assert all[0..] == all;
  }

  lemma AllRead(all: seq<Sextet>, last: Sextet, bits: nat, bytes: seq<Octet>)
    requires StillToRead(all, |all|, last, bits, bytes)
    ensures bytes == Octets(all)
  {
    assert all[|all|..] == [] && bytes + [] == bytes;
  }

  lemma OneSextet(all: seq<Sextet>, k: nat, last: Sextet, bits: nat, bytes: seq<Octet>)
    requires k < |all| && StillToRead(all, k, last, bits, bytes)
    ensures StillToRead(all, k + 1, all[k], if bits >= 2 then bits - 2 else 6,
                        bytes + if bits >= 2 then [Completed(last, bits, all[k])] else [])
  {
    var rest := all[k + 1..];
    assert all[k..][0] == all[k] && all[k..][1..] == rest;
    if bits >= 2 {
      Associative(bytes, [Completed(last, bits, all[k])], Remaining(all[k], bits - 2, rest));
    } else {
      assert bytes + [] == bytes;
    }
  }

  /** A byte is read at one of three positions, and sees exactly the last two sextets. */
  lemma PushSextet(accumulator: bv32, next: Sextet, bits: nat)
    ensures (((accumulator << 6) | next as bv32) & 63) as bv6 == next
    ensures bits == 2 || bits == 4 || bits == 6 ==>
      (Sar((accumulator << 6) | next as bv32, bits - 2) & 255) as bv8
        == Completed((accumulator & 63) as bv6, bits, next)
  {
    if bits == 6 { PushHigh(accumulator, next); } else if bits == 4 { PushMiddle(accumulator, next); }
  }

  lemma PushHigh(accumulator: bv32, next: Sextet)
    ensures (Sar((accumulator << 6) | next as bv32, 4) & 255) as bv8 == High((accumulator & 63) as bv6, next)
  {}

  lemma PushMiddle(accumulator: bv32, next: Sextet)
    ensures (Sar((accumulator << 6) | next as bv32, 2) & 255) as bv8 == Middle((accumulator & 63) as bv6, next)
  {}
}
