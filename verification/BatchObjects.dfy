/** The stream of `git cat-file --batch` and its parser (scripts/identity_scan.py:160-174).

    Bytes and characters are numbers. What Python makes of a header beyond ASCII is a parameter: `decode` is
    `decode("utf-8", "replace")`, and `beyond` is `int` on a text that is not all ASCII. */
module BatchObjects {
  import opened Sequences
  import opened Terms

  type Bytes = seq<int>
  type Text = seq<int>

  const NEWLINE := 10
  const SPACE := 32
  const PLUS := 43
  const MINUS := 45
  const UNDERSCORE := 95

  datatype Object = Object(id: Text, kind: Text, payload: Bytes)

  datatype Python = Python(decode: Bytes -> Text, beyond: Text -> Option<int>)

  predicate IsAscii(s: seq<int>) { forall i :: 0 <= i < |s| ==> 0 <= s[i] < 128 }

  /** UTF-8 leaves ASCII as it is. */
  ghost predicate Decodes(py: Python) { forall s: Bytes {:trigger py.decode(s)} :: IsAscii(s) ==> py.decode(s) == s }

  // ---------- fields ----------

  /** The white space that `str.split` knows. */
  predicate IsSpace(c: int) {
    || 9 <= c <= 13 || 28 <= c <= 32 || c == 0x85 || c == 0xA0 || c == 0x1680 || 0x2000 <= c <= 0x200A
    || c == 0x2028 || c == 0x2029 || c == 0x202F || c == 0x205F || c == 0x3000
  }

  predicate IsWord(w: Text) { w != [] && forall i :: 0 <= i < |w| ==> !IsSpace(w[i]) }

  function WordLength(s: Text): (n: nat)
    ensures n <= |s|
  {
    if s == [] || IsSpace(s[0]) then 0 else 1 + WordLength(s[1..])
  }

  /** `str.split()` */
  function Split(s: Text): seq<Text>
    decreases |s|
  {
    if s == [] then []
    else if IsSpace(s[0]) then Split(s[1..])
    else [s[..WordLength(s)]] + Split(s[WordLength(s)..])
  }

  lemma {:induction false} WordLengthOf(w: Text, rest: Text)
    requires forall i :: 0 <= i < |w| ==> !IsSpace(w[i])
    requires rest == [] || IsSpace(rest[0])
    ensures WordLength(w + rest) == |w|
  {
    if w == [] {
      assert w + rest == rest;
    } else {
      assert (w + rest)[1..] == w[1..] + rest;
      WordLengthOf(w[1..], rest);
    }
  }

  lemma SplitWord(w: Text, rest: Text)
    requires IsWord(w) && (rest == [] || IsSpace(rest[0]))
    ensures Split(w + rest) == [w] + Split(rest)
  {
    WordLengthOf(w, rest);
    assert (w + rest)[..|w|] == w && (w + rest)[|w|..] == rest;
  }

  predicate IsBlank(s: Text) { forall i :: 0 <= i < |s| ==> IsSpace(s[i]) }

  /** White space of any length and kind separates words, and none of it is part of one. */
  lemma {:induction false} BlanksSeparate(blank: Text, s: Text)
    requires IsBlank(blank)
    ensures Split(blank + s) == Split(s) && Split(blank) == []
  {
    if blank == [] {
      assert blank + s == s;
    } else {
      assert (blank + s)[1..] == blank[1..] + s;
      BlanksSeparate(blank[1..], s);
    }
  }

  lemma WordThenBlanks(w: Text, blank: Text, rest: Text)
    requires IsWord(w) && IsBlank(blank) && blank != []
    ensures Split(w + blank + rest) == [w] + Split(rest)
  {
    Associative(w, blank, rest);
    assert (blank + rest)[0] == blank[0];
    SplitWord(w, blank + rest);
    BlanksSeparate(blank, rest);
  }

  lemma LastWord(w: Text)
    requires IsWord(w)
    ensures Split(w) == [w]
  {
    SplitWord(w, []);
    assert w + [] == w;
  }

  lemma WordThenSpace(w: Text, rest: Text)
    requires IsWord(w)
    ensures Split(w + [SPACE] + rest) == [w] + Split(rest)
  {
    Associative(w, [SPACE], rest);
    SplitWord(w, [SPACE] + rest);
    assert ([SPACE] + rest)[1..] == rest;
  }

  lemma TwoFields(a: Text, b: Text)
    requires IsWord(a) && IsWord(b)
    ensures Split(a + [SPACE] + b) == [a, b]
  {
    WordThenSpace(a, b);
    LastWord(b);
  }

  lemma ThreeFields(a: Text, b: Text, c: Text)
    requires IsWord(a) && IsWord(b) && IsWord(c)
    ensures Split(a + [SPACE] + b + [SPACE] + c) == [a, b, c]
  {
    TwoFields(b, c);
    assert a + [SPACE] + b + [SPACE] + c == a + [SPACE] + (b + [SPACE] + c);
    WordThenSpace(a, b + [SPACE] + c);
  }

  // ---------- sizes ----------

  predicate IsDigit(c: int) { 48 <= c <= 57 }

  /** Digits, with single underscores between them. */
  function ParseDigits(s: Text): Option<nat> {
    if s == [] || !IsDigit(s[|s| - 1]) then None
    else if |s| == 1 then Some(s[0] - 48)
    else
      var high := ParseDigits(s[..if s[|s| - 2] == UNDERSCORE then |s| - 2 else |s| - 1]);
      if high.None? then None else Some(10 * high.value + (s[|s| - 1] - 48))
  }

  /** `int(text)` of a text without white space; None for the exception it raises. */
  function ParseSize(py: Python, s: Text): Option<int> {
    if !IsAscii(s) then py.beyond(s)
    else
      var signed := s != [] && (s[0] == PLUS || s[0] == MINUS);
      var digits := ParseDigits(if signed then s[1..] else s);
      if digits.None? then None
      else
        var n: int := digits.value;
        Some(if signed && s[0] == MINUS then -n else n)
  }

  function Decimal(n: nat): Text { if n < 10 then [48 + n] else Decimal(n / 10) + [48 + n % 10] }

  lemma {:induction false} DecimalDigits(n: nat)
    ensures Decimal(n) != [] && forall i :: 0 <= i < |Decimal(n)| ==> IsDigit(Decimal(n)[i])
    ensures ParseDigits(Decimal(n)) == Some(n)
  {
    if n >= 10 {
      DecimalDigits(n / 10);
      var s := Decimal(n);
      assert s[..|s| - 1] == Decimal(n / 10);
    }
  }

  /** A size as git prints it is read back. */
  lemma SizeRoundTrip(py: Python, n: nat)
    ensures ParseSize(py, Decimal(n)) == Some(n) && IsWord(Decimal(n)) && IsAscii(Decimal(n))
  {
    DecimalDigits(n);
  }

  predicate DigitOrInner(s: Text, i: int)
    requires 0 <= i < |s|
  {
    IsDigit(s[i]) || (s[i] == UNDERSCORE && 0 < i < |s| - 1 && IsDigit(s[i - 1]) && IsDigit(s[i + 1]))
  }

  function WithoutUnderscores(s: Text): Text {
    if s == [] then []
    else WithoutUnderscores(s[..|s| - 1]) + if s[|s| - 1] == UNDERSCORE then [] else [s[|s| - 1]]
  }

  /** Exactly the non-empty texts of digits with single underscores between them are numbers, and the underscores do
      not matter. */
  lemma {:induction false} DigitsIff(s: Text)
    ensures ParseDigits(s).Some? <==> s != [] && forall i :: 0 <= i < |s| ==> DigitOrInner(s, i)
    ensures ParseDigits(s).Some? ==>
      ParseDigits(WithoutUnderscores(s)) == ParseDigits(s) && WithoutUnderscores(s) != []
    decreases |s|
  {
    var n := |s|;
    if n > 0 && !IsDigit(s[n - 1]) {
      assert !DigitOrInner(s, n - 1);
    } else if n > 1 {
      var high := if s[n - 2] == UNDERSCORE then s[..n - 2] else s[..n - 1];
      DigitsIff(high);
      PrefixDigits(s, |high|);
      if ParseDigits(high).Some? { PlainStep(s, high); }
    } else if n == 1 {
      assert WithoutUnderscores(s) == s;
    }
  }

  lemma PlainStep(s: Text, high: Text)
    requires |s| > 1 && IsDigit(s[|s| - 1])
    requires high == if s[|s| - 2] == UNDERSCORE then s[..|s| - 2] else s[..|s| - 1]
    requires ParseDigits(high).Some? && ParseDigits(WithoutUnderscores(high)) == ParseDigits(high)
    requires WithoutUnderscores(high) != []
    ensures ParseDigits(WithoutUnderscores(s)) == ParseDigits(s) && WithoutUnderscores(s) != []
  {
    PlainParts(s, high);
    PlainDigits(high);
    LastDigitCounts(WithoutUnderscores(s), WithoutUnderscores(high));
    LastDigitCounts(s, high);
  }

  lemma PlainParts(s: Text, high: Text)
    requires |s| > 1 && IsDigit(s[|s| - 1])
    requires high == if s[|s| - 2] == UNDERSCORE then s[..|s| - 2] else s[..|s| - 1]
    ensures
      var plain, front := WithoutUnderscores(s), WithoutUnderscores(high);
      |plain| == |front| + 1 && plain[|plain| - 1] == s[|s| - 1] && plain[..|plain| - 1] == front
  {
    var n, front := |s|, WithoutUnderscores(high);
    assert s[..n - 1][..n - 2] == s[..n - 2];
    assert WithoutUnderscores(s[..n - 1]) == front;
    assert WithoutUnderscores(s) == front + [s[n - 1]];
  }

  lemma LastDigitCounts(s: Text, high: Text)
    requires |s| > 1 && IsDigit(s[|s| - 1])
    requires high == if s[|s| - 2] == UNDERSCORE then s[..|s| - 2] else s[..|s| - 1]
    ensures ParseDigits(s) ==
      var rest := ParseDigits(high);
      if rest.None? then None else Some(10 * rest.value + (s[|s| - 1] - 48))
  {}

  lemma PrefixDigits(s: Text, n: nat)
    requires |s| > 1 && IsDigit(s[|s| - 1]) && n == if s[|s| - 2] == UNDERSCORE then |s| - 2 else |s| - 1
    ensures (forall i :: 0 <= i < |s| ==> DigitOrInner(s, i))
       <==> n > 0 && forall i :: 0 <= i < n ==> DigitOrInner(s[..n], i)
  {
    if forall i :: 0 <= i < |s| ==> DigitOrInner(s, i) {
      if n < |s| - 1 { assert DigitOrInner(s, n); }
      forall i | 0 <= i < n ensures DigitOrInner(s[..n], i) {
        assert DigitOrInner(s, i);
      }
    }
    if n > 0 && forall i :: 0 <= i < n ==> DigitOrInner(s[..n], i) {
      forall i | 0 <= i < |s| ensures DigitOrInner(s, i) {
        assert DigitOrInner(s[..n], n - 1);
        if i < n { assert DigitOrInner(s[..n], i); }
      }
    }
  }

  lemma {:induction false} PlainDigits(s: Text)
    ensures forall i :: 0 <= i < |WithoutUnderscores(s)| ==> WithoutUnderscores(s)[i] != UNDERSCORE
  {
    if s != [] { PlainDigits(s[..|s| - 1]); }
  }

  /** A sign is read, and only one. */
  lemma SignedSize(py: Python, digits: Text)
    requires IsAscii(digits)
    ensures ParseSize(py, [PLUS] + digits)
            == if ParseDigits(digits).Some? then Some(ParseDigits(digits).value as int) else None
    ensures ParseSize(py, [MINUS] + digits)
            == if ParseDigits(digits).Some? then Some(-(ParseDigits(digits).value as int)) else None
    ensures ParseDigits(digits).Some? ==> ParseSize(py, digits) == Some(ParseDigits(digits).value as int)
  {
    SignedText(py, PLUS, digits, [PLUS] + digits);
    SignedText(py, MINUS, digits, [MINUS] + digits);
    if ParseDigits(digits).Some? { FirstIsDigit(digits); }
  }

  lemma SignedText(py: Python, sign: int, digits: Text, s: Text)
    requires IsAscii(digits) && (sign == PLUS || sign == MINUS) && s == [sign] + digits
    ensures ParseSize(py, s) ==
      var n := ParseDigits(digits);
      if n.None? then None else Some(if sign == MINUS then -(n.value as int) else n.value as int)
  {
    assert s[0] == sign && s[1..] == digits;
    assert IsAscii(s);
  }

  lemma FirstIsDigit(digits: Text)
    requires ParseDigits(digits).Some?
    ensures digits != [] && IsDigit(digits[0])
  {
    DigitsIff(digits);
    assert DigitOrInner(digits, 0);
  }

  // ---------- streams ----------

  /** Where the first newline is, or the length if there is none. */
  function Line(s: Bytes): (n: nat)
    ensures n <= |s|
  {
    if s == [] || s[0] == NEWLINE then 0 else 1 + Line(s[1..])
  }

  /** What the front of a stream holds: an entry and how far it reaches, the end or an unknown header, a size that
      is no number, or a negative size that would move the parser back. */
  datatype Front = Entry(value: Object, reach: Reach) | End | Malformed | Backward

  type Reach = n: nat | n > 0 witness 1

  function FrontOf(py: Python, s: Bytes): Front {
    var end := Line(s);
    if end == |s| then End
    else
      var header := Split(py.decode(s[..end]));
      if |header| != 3 then End
      else FrontWithSize(s, end + 1, header, ParseSize(py, header[2]))
  }

  /** `data[position:position + size]` and the position after it, counted from the front of the stream. */
  function FrontWithSize(s: Bytes, start: nat, header: seq<Text>, size: Option<int>): Front
    requires 0 < start <= |s| && |header| == 3
  {
    if size.None? then Malformed
    else if size.value >= 0 then
      Entry(Object(header[0], header[1], s[start..Min(start + size.value, |s|)]), start + size.value + 1)
    else if start + size.value + 1 > 0 then Entry(Object(header[0], header[1], []), start + size.value + 1)
    else Backward
  }

  function Tail(s: Bytes, position: nat): Bytes { if position < |s| then s[position..] else [] }

  /**
   * The objects at the front of a stream; `Raises` for a size that is no number, `Rewinds` where the parser moves
   * back.
   */
  datatype Parsed = Objects(objects: seq<Object>) | Raises | Rewinds

  function Parse(py: Python, s: Bytes): Parsed { ParseWith(Reader(py), s) }

  function Reader(py: Python): Bytes -> Front { s => FrontOf(py, s) }

  /** The same, whatever reads the front of a stream. */
  function ParseWith(read: Bytes -> Front, s: Bytes): Parsed
    decreases |s|
  {
    if s == [] then Objects([]) else
    var front := read(s);
    if front.Entry? then Joined([front.value], ParseWith(read, Tail(s, front.reach))) else Stopped([], front)
  }

  function Joined(objects: seq<Object>, rest: Parsed): Parsed {
    if rest.Objects? then Objects(objects + rest.objects) else rest
  }

  lemma JoinedNone(rest: Parsed)
    ensures Joined([], rest) == rest
  {
    if rest.Objects? { assert [] + rest.objects == rest.objects; }
  }

  lemma JoinedTwice(a: seq<Object>, b: seq<Object>, rest: Parsed)
    ensures Joined(a, Joined(b, rest)) == Joined(a + b, rest)
  {
    if rest.Objects? { Associative(a, b, rest.objects); }
  }

  // ---------- printing and parsing ----------

  function Header(o: Object): Bytes { o.id + [SPACE] + o.kind + [SPACE] + Decimal(|o.payload|) }

  /** What git prints for one object and for a list of them. */
  function Printed(o: Object): Bytes { Header(o) + [NEWLINE] + o.payload + [NEWLINE] }

  function Print(objects: seq<Object>): Bytes {
    if objects == [] then [] else Printed(objects[0]) + Print(objects[1..])
  }

  /** Ids and kinds are ASCII words; the payload is any bytes. */
  predicate Printable(o: Object) { IsWord(o.id) && IsWord(o.kind) && IsAscii(o.id) && IsAscii(o.kind) }

  lemma {:induction false} LineEnds(h: Bytes, rest: Bytes)
    requires forall i :: 0 <= i < |h| ==> h[i] != NEWLINE
    ensures Line(h + [NEWLINE] + rest) == |h|
  {
    if h != [] {
      assert (h + [NEWLINE] + rest)[1..] == h[1..] + [NEWLINE] + rest;
      LineEnds(h[1..], rest);
    }
  }

  lemma HeaderFields(py: Python, o: Object)
    requires Printable(o)
    ensures Split(Header(o)) == [o.id, o.kind, Decimal(|o.payload|)]
    ensures OneLine(Header(o))
  {
    var size := Decimal(|o.payload|);
    SizeRoundTrip(py, |o.payload|);
    ThreeFields(o.id, o.kind, size);
    OnOneLine(o.id, [SPACE]); OnOneLine(o.id + [SPACE], o.kind);
    OnOneLine(o.id + [SPACE] + o.kind, [SPACE]); OnOneLine(o.id + [SPACE] + o.kind + [SPACE], size);
  }

  /** ASCII without a newline, as words are. */
  predicate OneLine(s: Text) { IsAscii(s) && forall i :: 0 <= i < |s| ==> s[i] != NEWLINE }

  lemma OnOneLine(a: Text, b: Text)
    requires OneLine(a) && OneLine(b)
    ensures OneLine(a + b)
  {}

  lemma FrontOfPrinted(py: Python, o: Object, rest: Bytes)
    requires Decodes(py) && Printable(o)
    ensures FrontOf(py, Printed(o) + rest) == Entry(o, |Printed(o)|)
  {
    var h, n := Header(o), |o.payload|;
    var s := Printed(o) + rest;
    HeaderFields(py, o);
    SizeRoundTrip(py, n);
    LineEnds(h, o.payload + [NEWLINE] + rest);
    assert s == h + [NEWLINE] + (o.payload + [NEWLINE] + rest);
    assert s[..|h|] == h && s[|h| + 1..|h| + 1 + n] == o.payload;
  }

  /** Whatever the payload contains, the parser resumes right behind it. */
  lemma ParseEntry(py: Python, o: Object, rest: Bytes)
    requires Decodes(py) && Printable(o)
    ensures Parse(py, Printed(o) + rest) == Joined([o], Parse(py, rest))
  {
    FrontOfPrinted(py, o, rest);
    assert Tail(Printed(o) + rest, |Printed(o)|) == rest;
    assert Reader(py)(Printed(o) + rest) == Entry(o, |Printed(o)|);
  }

  lemma {:induction false} ParsePrinted(py: Python, objects: seq<Object>, rest: Bytes)
    requires Decodes(py) && forall i :: 0 <= i < |objects| ==> Printable(objects[i])
    ensures Parse(py, Print(objects) + rest) == Joined(objects, Parse(py, rest))
  {
    if objects == [] {
      assert Print(objects) + rest == rest;
      JoinedNone(Parse(py, rest));
    } else {
      var tail := Print(objects[1..]) + rest;
      Associative(Printed(objects[0]), Print(objects[1..]), rest);
      ParseEntry(py, objects[0], tail);
      ParsePrinted(py, objects[1..], rest);
      JoinedTwice([objects[0]], objects[1..], Parse(py, rest));
      assert [objects[0]] + objects[1..] == objects;
    }
  }

  /** Parsing inverts printing. */
  lemma ParseInvertsPrint(py: Python, objects: seq<Object>)
    requires Decodes(py) && forall i :: 0 <= i < |objects| ==> Printable(objects[i])
    ensures Parse(py, Print(objects)) == Objects(objects)
  {
    ParsePrinted(py, objects, []);
    assert Parse(py, []) == Objects([]);
    assert Print(objects) + [] == Print(objects);
    assert objects + [] == objects;
  }

  /** A two-field header, such as `<id> missing`, ends the parse with exactly the objects before it. */
  lemma StopsAtMissing(py: Python, objects: seq<Object>, id: Text, word: Text, rest: Bytes)
    requires Decodes(py) && forall i :: 0 <= i < |objects| ==> Printable(objects[i])
    requires IsWord(id) && IsWord(word) && IsAscii(id) && IsAscii(word)
    ensures Parse(py, Print(objects) + (id + [SPACE] + word + [NEWLINE] + rest)) == Objects(objects)
  {
    var tail := id + [SPACE] + word + [NEWLINE] + rest;
    TwoFieldsEnd(py, id, word, rest);
    assert Reader(py)(tail) == End;
    ParsePrinted(py, objects, tail);
    assert objects + [] == objects;
  }

  /** So does any other header that is not of three fields, however it decodes, and a last line that is cut short. */
  lemma StopsAtOtherHeader(py: Python, objects: seq<Object>, h: Bytes, rest: Bytes)
    requires Decodes(py) && forall i :: 0 <= i < |objects| ==> Printable(objects[i])
    requires forall i :: 0 <= i < |h| ==> h[i] != NEWLINE
    ensures |Split(py.decode(h))| != 3 ==> Parse(py, Print(objects) + (h + [NEWLINE] + rest)) == Objects(objects)
    ensures Parse(py, Print(objects) + h) == Objects(objects)
  {
    if |Split(py.decode(h))| != 3 {
      OtherHeaderEnds(py, h, rest);
      EndsAfter(py, objects, h + [NEWLINE] + rest);
    }
    NoNewline(h);
    EndsAfter(py, objects, h);
  }

  lemma OtherHeaderEnds(py: Python, h: Bytes, rest: Bytes)
    requires (forall i :: 0 <= i < |h| ==> h[i] != NEWLINE) && |Split(py.decode(h))| != 3
    ensures FrontOf(py, h + [NEWLINE] + rest) == End
  {
    LineEnds(h, rest);
    assert (h + [NEWLINE] + rest)[..|h|] == h;
  }

  lemma EndsAfter(py: Python, objects: seq<Object>, tail: Bytes)
    requires Decodes(py) && forall i :: 0 <= i < |objects| ==> Printable(objects[i])
    requires tail == [] || FrontOf(py, tail) == End
    ensures Parse(py, Print(objects) + tail) == Objects(objects)
  {
    ParsePrinted(py, objects, tail);
    assert tail != [] ==> Reader(py)(tail) == End;
    assert Parse(py, tail) == Objects([]);
    assert objects + [] == objects;
  }

  lemma {:induction false} NoNewline(h: Bytes)
    requires forall i :: 0 <= i < |h| ==> h[i] != NEWLINE
    ensures Line(h) == |h|
  {
    if h != [] { NoNewline(h[1..]); }
  }

  lemma TwoFieldsEnd(py: Python, id: Text, word: Text, rest: Bytes)
    requires Decodes(py) && IsWord(id) && IsWord(word) && IsAscii(id) && IsAscii(word)
    ensures FrontOf(py, id + [SPACE] + word + [NEWLINE] + rest) == End
  {
    var h := id + [SPACE] + word;
    OnOneLine(id, [SPACE]); OnOneLine(id + [SPACE], word);
    LineEnds(h, rest);
    assert (h + [NEWLINE] + rest)[..|h|] == h;
    TwoFields(id, word);
  }

  /** A header of three fields whose size is not what follows it: a size that is no number raises, one that reaches
      past the end takes what there is, and a negative one that leads back to the header or before it is told. */
  lemma OddSizes(py: Python, objects: seq<Object>, id: Text, kind: Text, size: Text, rest: Bytes)
    requires Decodes(py) && forall i :: 0 <= i < |objects| ==> Printable(objects[i])
    requires IsWord(id) && IsWord(kind) && IsWord(size) && IsAscii(id) && IsAscii(kind) && IsAscii(size)
    ensures
      var header := id + [SPACE] + kind + [SPACE] + size;
      var n, result := ParseSize(py, size), Parse(py, Print(objects) + (header + [NEWLINE] + rest));
      && (n.None? ==> result == Raises)
      && (n.Some? && n.value >= |rest| ==> result == Objects(objects + [Object(id, kind, rest)]))
      && (n.Some? && n.value <= -(|header| + 2) ==> result == Rewinds)
  {
    OddTail(py, id, kind, size, rest);
    ParsePrinted(py, objects, id + [SPACE] + kind + [SPACE] + size + [NEWLINE] + rest);
  }

  lemma OddTail(py: Python, id: Text, kind: Text, size: Text, rest: Bytes)
    requires Decodes(py) && IsWord(id) && IsWord(kind) && IsWord(size) && IsAscii(id) && IsAscii(kind) && IsAscii(size)
    ensures
      var header := id + [SPACE] + kind + [SPACE] + size;
      var n, result := ParseSize(py, size), Parse(py, header + [NEWLINE] + rest);
      && (n.None? ==> result == Raises)
      && (n.Some? && n.value >= |rest| ==> result == Objects([Object(id, kind, rest)]))
      && (n.Some? && n.value <= -(|header| + 2) ==> result == Rewinds)
  {
    var h, n := id + [SPACE] + kind + [SPACE] + size, ParseSize(py, size);
    ThreeFieldsFront(py, id, kind, size, rest);
    FrontDecides(py, h + [NEWLINE] + rest);
    if n.Some? && n.value >= |rest| { WholeTail(h, rest, [id, kind, size], n.value); }
  }

  lemma WholeTail(h: Bytes, rest: Bytes, header: seq<Text>, n: int)
    requires n >= |rest| && |header| == 3
    ensures
      var tail := h + [NEWLINE] + rest;
      FrontWithSize(tail, |h| + 1, header, Some(n)) == Entry(Object(header[0], header[1], rest), |h| + 1 + n + 1)
      && |h| + 1 + n + 1 > |tail|
  {
    var tail := h + [NEWLINE] + rest;
    assert tail[|h| + 1..|tail|] == rest && Min(|h| + 1 + n, |tail|) == |tail|;
  }

  lemma FrontDecides(py: Python, s: Bytes)
    requires s != []
    ensures FrontOf(py, s).Malformed? ==> Parse(py, s) == Raises
    ensures FrontOf(py, s).Backward? ==> Parse(py, s) == Rewinds
    ensures FrontOf(py, s).Entry? && FrontOf(py, s).reach >= |s| ==> Parse(py, s) == Objects([FrontOf(py, s).value])
  {
    var front := Reader(py)(s);
    if front.Entry? && front.reach >= |s| {
      assert Tail(s, front.reach) == [];
      assert ParseWith(Reader(py), []) == Objects([]);
      assert [front.value] + [] == [front.value];
    }
  }

  lemma ThreeFieldsFront(py: Python, id: Text, kind: Text, size: Text, rest: Bytes)
    requires Decodes(py) && IsWord(id) && IsWord(kind) && IsWord(size) && IsAscii(id) && IsAscii(kind) && IsAscii(size)
    ensures
      var h := id + [SPACE] + kind + [SPACE] + size;
      FrontOf(py, h + [NEWLINE] + rest)
      == FrontWithSize(h + [NEWLINE] + rest, |h| + 1, [id, kind, size], ParseSize(py, size))
  {
    var h := id + [SPACE] + kind + [SPACE] + size;
    OnOneLine(id, [SPACE]); OnOneLine(id + [SPACE], kind);
    OnOneLine(id + [SPACE] + kind, [SPACE]); OnOneLine(id + [SPACE] + kind + [SPACE], size);
    LineEnds(h, rest);
    assert (h + [NEWLINE] + rest)[..|h|] == h;
    ThreeFields(id, kind, size);
  }

  /** Distinct lists print differently, so a stream tells which objects it holds. */
  lemma PrintIsInjective(xs: seq<Object>, ys: seq<Object>)
    requires forall i :: 0 <= i < |xs| ==> Printable(xs[i])
    requires forall i :: 0 <= i < |ys| ==> Printable(ys[i])
    requires Print(xs) == Print(ys)
    ensures xs == ys
  {
    var py := Python(s => s, s => None);
    ParseInvertsPrint(py, xs);
    ParseInvertsPrint(py, ys);
  }

  // ---------- the loop ----------

  /** The loop's body up to its `append`: the header and payload at `position`. */
  method ReadEntry(py: Python, data: Bytes, position: nat) returns (front: Front)
    requires position < |data|
    ensures front == FrontOf(py, Tail(data, position))
  {
    ghost var rest := data[position..];
    var headerEnd := position + Line(data[position..]);
    if headerEnd == |data| { return End; }
    var header := Split(py.decode(data[position..headerEnd]));
    assert data[position..headerEnd] == rest[..headerEnd - position];
    if |header| != 3 { return End; }
    front := ReadPayload(data, position, headerEnd + 1, header, ParseSize(py, header[2]));
  }

  method ReadPayload(data: Bytes, position: nat, start: nat, header: seq<Text>, size: Option<int>)
      returns (front: Front)
    requires position < start <= |data| && |header| == 3
    ensures front == FrontWithSize(data[position..], start - position, header, size)
  {
    if size.None? { return Malformed; }
    var next := start + size.value + 1;
    if next <= position { return Backward; }
    var payload := if size.value >= 0 then data[start..Min(start + size.value, |data|)] else [];
    ghost var rest, from := data[position..], start - position;
    assert size.value >= 0 ==> payload == rest[from..Min(from + size.value, |rest|)];
    return Entry(Object(header[0], header[1], payload), next - position);
  }

  method BatchObjects(py: Python, data: Bytes) returns (result: Parsed)
    ensures result == Parse(py, data)
  {
    result := ReadAll(py, data, Reader(py));
  }

  /** The loop. `read` stands for what `ReadEntry` computes, so that the loop does not depend on how it does. */
  method ReadAll(py: Python, data: Bytes, ghost read: Bytes -> Front) returns (result: Parsed)
    requires AgreesOn(read, py, data)
    ensures result == ParseWith(read, data)
  {
    ghost var expected := ParseWith(read, data);
    var objects: seq<Object> := [];
    var position := 0;
    NothingParsed(read, data);
    while position < |data|
      invariant StillToParse(read, data, position, objects, expected)
      decreases |data| - position
    {
      var front := NextEntry(py, data, position, read, objects, expected);
      if !front.Entry? { return Stopped(objects, front); }
      objects := objects + [front.value];
      position := position + front.reach;
    }
    LastPass(read, data, position, objects, expected);
    result := Objects(objects);
  }

  ghost predicate Agrees(read: Bytes -> Front, py: Python, data: Bytes, position: nat) {
    read(Tail(data, position)) == FrontOf(py, Tail(data, position))
  }

  ghost predicate AgreesOn(read: Bytes -> Front, py: Python, data: Bytes) {
    forall position: nat {:trigger Agrees(read, py, data, position)} :: Agrees(read, py, data, position)
  }

  /** Reads one entry and tells what that leaves to be parsed. */
  method NextEntry(py: Python, data: Bytes, position: nat, ghost read: Bytes -> Front, ghost objects: seq<Object>,
                   ghost expected: Parsed)
    returns (front: Front)
    requires position < |data| && AgreesOn(read, py, data) && StillToParse(read, data, position, objects, expected)
    ensures !front.Entry? ==> expected == Stopped(objects, front)
    ensures front.Entry? ==> StillToParse(read, data, position + front.reach, objects + [front.value], expected)
  {
    front := ReadEntry(py, data, position);
    assert Agrees(read, py, data, position);
    OnePass(read, data, position, objects, expected, front);
  }

  /** What the parser answers where it stops short of the end of the stream. */
  function Stopped(objects: seq<Object>, front: Front): Parsed {
    match front case Malformed => Raises case Backward => Rewinds case _ => Objects(objects)
  }

  /** The objects so far, continued with those of the rest of the stream, are the expected ones. */
  ghost predicate StillToParse(read: Bytes -> Front, data: Bytes, position: nat, objects: seq<Object>,
      expected: Parsed) {
    expected == Joined(objects, ParseWith(read, Tail(data, position)))
  }

  lemma NothingParsed(read: Bytes -> Front, data: Bytes)
    ensures StillToParse(read, data, 0, [], ParseWith(read, data))
  {
    JoinedNone(ParseWith(read, data));
    assert Tail(data, 0) == data;
  }

  lemma LastPass(read: Bytes -> Front, data: Bytes, position: nat, objects: seq<Object>, expected: Parsed)
    requires position >= |data| && StillToParse(read, data, position, objects, expected)
    ensures expected == Objects(objects)
  {
    assert objects + [] == objects;
  }

  lemma OnePass(read: Bytes -> Front, data: Bytes, position: nat, objects: seq<Object>, expected: Parsed, front: Front)
    requires position < |data| && front == read(Tail(data, position))
    requires StillToParse(read, data, position, objects, expected)
    ensures !front.Entry? ==> expected == Stopped(objects, front)
    ensures front.Entry? ==> StillToParse(read, data, position + front.reach, objects + [front.value], expected)
  {
    AfterFront(read, Tail(data, position), objects, front);
    if front.Entry? { TailOfTail(data, position, front.reach); }
  }

  lemma AfterFront(read: Bytes -> Front, s: Bytes, objects: seq<Object>, front: Front)
    requires s != [] && front == read(s)
    ensures Joined(objects, ParseWith(read, s)) ==
            if front.Entry? then Joined(objects + [front.value], ParseWith(read, Tail(s, front.reach)))
              else Stopped(objects, front)
  {
    if front.Entry? {
      JoinedTwice(objects, [front.value], ParseWith(read, Tail(s, front.reach)));
    } else {
      assert objects + [] == objects;
    }
  }

  lemma TailOfTail(s: Bytes, position: nat, k: nat)
    ensures Tail(Tail(s, position), k) == Tail(s, position + k)
  {}
}
