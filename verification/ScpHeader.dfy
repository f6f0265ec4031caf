/**
 The `C` and `D` header lines of the SCP protocol, as `upload_file` and `upload_dir` print them
 and as `parse_c_header` reads them, down to the bytes.
 */
module ScpHeader {
  import opened Common

  type byte = x: int | 0 <= x < 256
  type Bytes = seq<byte>

  datatype ParseError = InvalidUtf8 | Malformed | BadSize
  datatype ParseResult = Parsed(size: nat, name: Bytes) | Rejected(error: ParseError)

  const NL: byte := 10
  const SPACE: byte := 32
  const PLUS: byte := 43
  const ZERO: byte := 48
  const LETTER_C: byte := 67
  const LETTER_D: byte := 68
  const LETTER_E: byte := 69
  const U64_MAX: nat := 0xFFFF_FFFF_FFFF_FFFF

  // ----- decimal numbers -----

  /** A number as `format!("{size}")` prints it. */
  function PrintU64(n: nat): (s: Bytes)
    ensures s != []
    ensures forall i :: 0 <= i < |s| ==> ZERO <= s[i] <= ZERO + 9
  {
    if n < 10 then [ZERO + n] else PrintU64(n / 10) + [ZERO + n % 10]
  }

  function ParseDigits(s: Bytes): Option<nat> {
    if s == [] then Some(0)
    else
      var d := s[|s| - 1];
      var high := ParseDigits(s[..|s| - 1]);
      if high.None? || !(ZERO <= d <= ZERO + 9) then None
      else
        var v := high.value * 10 + (d - ZERO);
        if v > U64_MAX then None else Some(v)
  }

  /** `str::parse::<u64>`: an optional plus sign, then at least one digit, without overflow. */
  function ParseU64(s: Bytes): Option<nat> {
    if s == [] || s == [PLUS] then None
    else if s[0] == PLUS then ParseDigits(s[1..])
    else ParseDigits(s)
  }

  predicate AllDigits(s: Bytes) { forall i :: 0 <= i < |s| ==> ZERO <= s[i] <= ZERO + 9 }

  /** The number that digits make, however large. */
  function Decimal(s: Bytes): nat
    requires AllDigits(s)
  {
    if s == [] then 0 else Decimal(s[..|s| - 1]) * 10 + (s[|s| - 1] - ZERO)
  }

  /** Digits parse exactly if the number they make fits 64 bits, and to that number. */
  lemma {:induction false} DigitsParseExactly(s: Bytes)
    ensures ParseDigits(s).Some? <==> AllDigits(s) && Decimal(s) <= U64_MAX
    ensures ParseDigits(s).Some? ==> ParseDigits(s).value == Decimal(s)
  {
    if s != [] {
      DigitsParseExactly(s[..|s| - 1]);
    }
  }

  lemma {:induction false} PrintedDigitsParse(n: nat)
    requires n <= U64_MAX
    ensures ParseDigits(PrintU64(n)) == Some(n)
  {
    var s := PrintU64(n);
    if n < 10 {
      assert s[..0] == [];
    } else {
      PrintedDigitsParse(n / 10);
      assert s[..|s| - 1] == PrintU64(n / 10);
    }
  }

  lemma PrintedNumberParses(n: nat)
    requires n <= U64_MAX
    ensures ParseU64(PrintU64(n)) == Some(n)
  {
    PrintedDigitsParse(n);
  }

  // ----- UTF-8 (section 3 of RFC 3629) -----

  predicate Tail(s: Bytes, i: nat, lo: int, hi: int) {
    i < |s| && lo <= s[i] <= hi
  }

  /** Length of the well-formed character at the front of `s`, 0 if there is none. */
  function FirstChar(s: Bytes): (n: nat)
    ensures n <= |s|
  {
    if s == [] then 0
    else if s[0] < 0x80 then 1
    else if 0xC2 <= s[0] <= 0xDF && Tail(s, 1, 0x80, 0xBF) then 2
    else if 0xE0 <= s[0] <= 0xEF
         && Tail(s, 1, if s[0] == 0xE0 then 0xA0 else 0x80, if s[0] == 0xED then 0x9F else 0xBF)
         && Tail(s, 2, 0x80, 0xBF) then 3
    else if 0xF0 <= s[0] <= 0xF4
         && Tail(s, 1, if s[0] == 0xF0 then 0x90 else 0x80, if s[0] == 0xF4 then 0x8F else 0xBF)
         && Tail(s, 2, 0x80, 0xBF) && Tail(s, 3, 0x80, 0xBF) then 4
    else 0
  }

  predicate ValidUtf8(s: Bytes)
    decreases |s|
  {
    s == [] || (FirstChar(s) > 0 && ValidUtf8(s[FirstChar(s)..]))
  }

  lemma {:induction false} Utf8Concat(a: Bytes, b: Bytes)
    requires ValidUtf8(a) && ValidUtf8(b)
    ensures ValidUtf8(a + b)
    decreases |a|
  {
    if a == [] {
      assert a + b == b;
    } else {
      var n := FirstChar(a);
      assert FirstChar(a + b) == n;
      assert (a + b)[n..] == a[n..] + b;
      Utf8Concat(a[n..], b);
    }
  }

  lemma {:induction false} AsciiIsUtf8(s: Bytes)
    requires forall i :: 0 <= i < |s| ==> s[i] < 0x80
    ensures ValidUtf8(s)
  {
    if s != [] {
      AsciiIsUtf8(s[1..]);
    }
  }

  /** The numbers that are characters. */
  predicate Scalar(c: nat) { c < 0xD800 || 0xE000 <= c < 0x11_0000 }

  /** The bytes of a character. */
  function Encode(c: nat): Bytes
    requires Scalar(c)
  {
    if c < 0x80 then [c]
    else if c < 0x800 then [0xC0 + c / 64, 0x80 + c % 64]
    else if c < 0x1_0000 then [0xE0 + c / 4096, 0x80 + c / 64 % 64, 0x80 + c % 64]
    else [0xF0 + c / 262144, 0x80 + c / 4096 % 64, 0x80 + c / 64 % 64, 0x80 + c % 64]
  }

  lemma EncodedIsFound(c: nat, rest: Bytes)
    requires Scalar(c)
    ensures FirstChar(Encode(c) + rest) == |Encode(c)| > 0
  {
    EncodedAlone(c);
    FirstStays(Encode(c), rest);
  }

  lemma EncodedAlone(c: nat)
    requires Scalar(c)
    ensures FirstChar(Encode(c)) == |Encode(c)| > 0
  {
  }

  lemma FirstStays(a: Bytes, b: Bytes)
    requires FirstChar(a) > 0
    ensures FirstChar(a + b) == FirstChar(a)
  {
    assert forall i :: 0 <= i < |a| ==> (a + b)[i] == a[i];
  }

  /** The character found at the front. */
  function Decode(s: Bytes): (c: int)
    requires FirstChar(s) > 0
  {
    match FirstChar(s)
    case 1 => s[0]
    case 2 => Two(s[0], s[1])
    case 3 => Three(s[0], s[1], s[2])
    case _ => Four(s[0], s[1], s[2], s[3])
  }

  function Two(a: int, b: int): int { (a - 0xC0) * 64 + (b - 0x80) }

  function Three(a: int, b: int, c: int): int { (a - 0xE0) * 4096 + (b - 0x80) * 64 + (c - 0x80) }

  function Four(a: int, b: int, c: int, d: int): int {
    (a - 0xF0) * 262144 + (b - 0x80) * 4096 + (c - 0x80) * 64 + (d - 0x80)
  }

  lemma FoundTwo(a: byte, b: byte)
    requires 0xC2 <= a <= 0xDF && 0x80 <= b <= 0xBF
    ensures Scalar(Two(a, b)) && Encode(Two(a, b)) == [a, b]
  {
  }

  lemma Split64(high: nat, low: nat)
    requires low < 64
    ensures (high * 64 + low) / 64 == high && (high * 64 + low) % 64 == low
  {
  }

  lemma Halved(n: nat)
    ensures n / 4096 == n / 64 / 64 && n / 262144 == n / 64 / 64 / 64
  {
  }

  lemma FoundThree(a: byte, b: byte, c: byte)
    requires 0xE0 <= a <= 0xEF && 0x80 <= b <= 0xBF && 0x80 <= c <= 0xBF
    requires (a == 0xE0 ==> b >= 0xA0) && (a == 0xED ==> b <= 0x9F)
    ensures Scalar(Three(a, b, c)) && Encode(Three(a, b, c)) == [a, b, c]
  {
    var n := Three(a, b, c);
    assert 0x800 <= n < 0x1_0000;
    SixBitGroups(n, 0, a - 0xE0, b - 0x80, c - 0x80);
    ThreeOfGroups(n, a, b, c);
  }

  lemma ThreeOfGroups(n: nat, a: byte, b: byte, c: byte)
    requires 0x800 <= n < 0x1_0000 && Scalar(n)
    requires n / 4096 % 64 == a - 0xE0 && n / 64 % 64 == b - 0x80 && n % 64 == c - 0x80
    ensures Encode(n) == [a, b, c]
  {
  }

  lemma FoundFour(a: byte, b: byte, c: byte, d: byte)
    requires 0xF0 <= a <= 0xF4 && 0x80 <= b <= 0xBF && 0x80 <= c <= 0xBF && 0x80 <= d <= 0xBF
    requires (a == 0xF0 ==> b >= 0x90) && (a == 0xF4 ==> b <= 0x8F)
    ensures Scalar(Four(a, b, c, d)) && Encode(Four(a, b, c, d)) == [a, b, c, d]
  {
    hide Encode;
    var n := Four(a, b, c, d);
    assert 0x1_0000 <= n < 0x11_0000;
    EncodedFour(n, a, b, c, d);
  }

  lemma EncodedFour(n: nat, a: byte, b: byte, c: byte, d: byte)
    requires 0x1_0000 <= n < 0x11_0000 && n == Four(a, b, c, d)
    requires 0xF0 <= a && 0x80 <= b <= 0xBF && 0x80 <= c <= 0xBF && 0x80 <= d <= 0xBF
    ensures Encode(n) == [a, b, c, d]
  {
    hide Encode;
    SixBitGroups(n, a - 0xF0, b - 0x80, c - 0x80, d - 0x80);
    FourOfGroups(n, a, b, c, d);
  }

  lemma FourOfGroups(n: nat, a: byte, b: byte, c: byte, d: byte)
    requires 0x1_0000 <= n < 0x11_0000
    requires n / 262144 == a - 0xF0 && n / 4096 % 64 == b - 0x80 && n / 64 % 64 == c - 0x80 && n % 64 == d - 0x80
    ensures Encode(n) == [a, b, c, d]
  {
  }

  lemma SixBitGroups(n: nat, w: nat, x: nat, y: nat, z: nat)
    requires x < 64 && y < 64 && z < 64 && n == w * 262144 + x * 4096 + y * 64 + z
    ensures n / 262144 == w && n / 4096 % 64 == x && n / 64 % 64 == y && n % 64 == z
  {
    var top := w * 64 + x;
    var high := top * 64 + y;
    Split64(high, z);
    Split64(top, y);
    Split64(w, x);
    Halved(n);
  }

  lemma FoundIsEncoded(s: Bytes)
    requires FirstChar(s) > 0
    ensures Decode(s) >= 0 && Scalar(Decode(s)) && Encode(Decode(s)) == s[..FirstChar(s)]
  {
    match FirstChar(s)
    case 1 =>
    case 2 =>
      hide Encode;
      FoundTwo(s[0], s[1]);
    case 3 =>
      hide Encode;
      FoundThree(s[0], s[1], s[2]);
    case _ =>
      hide Encode;
      FoundFour(s[0], s[1], s[2], s[3]);
  }

  /** The bytes of a text. */
  function EncodeAll(cs: seq<nat>): Bytes
    requires forall i :: 0 <= i < |cs| ==> Scalar(cs[i])
  {
    if cs == [] then [] else Encode(cs[0]) + EncodeAll(cs[1..])
  }

  lemma {:induction false} EncodedIsValid(cs: seq<nat>)
    requires forall i :: 0 <= i < |cs| ==> Scalar(cs[i])
    ensures ValidUtf8(EncodeAll(cs))
  {
    hide Encode;
    hide FirstChar;
    if cs != [] {
      var first, rest := Encode(cs[0]), EncodeAll(cs[1..]);
      EncodedIsFound(cs[0], rest);
      EncodedIsValid(cs[1..]);
      assert (first + rest)[|first|..] == rest;
    }
  }

  /** Bytes are well formed exactly if they are the bytes of some text. */
  lemma {:induction false} ValidIsEncoded(s: Bytes) returns (cs: seq<nat>)
    requires ValidUtf8(s)
    ensures (forall i :: 0 <= i < |cs| ==> Scalar(cs[i])) && EncodeAll(cs) == s
    decreases |s|
  {
    hide Encode;
    hide FirstChar;
    hide Decode;
    cs := [];
    if s != [] {
      FoundIsEncoded(s);
      var n := FirstChar(s);
      var more := ValidIsEncoded(s[n..]);
      cs := [Decode(s)] + more;
      assert cs[1..] == more && s == s[..n] + s[n..];
    }
  }

  // ----- the header line -----

  /** `trim_end_matches('\n')`. */
  function TrimNewlines(s: Bytes): (r: Bytes)
    ensures r <= s && (r == [] || r[|r| - 1] != NL) && forall i :: |r| <= i < |s| ==> s[i] == NL
  {
    if s != [] && s[|s| - 1] == NL then TrimNewlines(s[..|s| - 1]) else s
  }

  /** Index of the first space, `|s|` if there is none. */
  function FindSpace(s: Bytes): (i: nat)
    ensures i <= |s| && (i < |s| ==> s[i] == SPACE)
    ensures forall j :: 0 <= j < i ==> s[j] != SPACE
  {
    if s == [] || s[0] == SPACE then 0 else 1 + FindSpace(s[1..])
  }

  /** `splitn(3, ' ')` on what follows the first byte, and the reading of the three parts. */
  function ParseFields(rest: Bytes): ParseResult {
    var i := FindSpace(rest);
    if i == |rest| then Rejected(Malformed)
    else
      var tail := rest[i + 1..];
      var j := FindSpace(tail);
      if j == |tail| then Rejected(Malformed)
      else
        match ParseU64(tail[..j])
        case None => Rejected(BadSize)
        case Some(size) => Parsed(size, tail[j + 1..])
  }

  /** `parse_c_header`; its callers have looked at the first byte. */
  function ParseHeader(buf: Bytes): ParseResult
    requires buf != [] && buf[0] < 0x80 && buf[0] != NL
  {
    if !ValidUtf8(buf) then Rejected(InvalidUtf8)
    else
      var line := TrimNewlines(buf);
      ParseFields(if line == [] then [] else line[1..])
  }

  /** The line after its first byte has a mode, a number and a name, separated by single spaces. */
  ghost predicate ThreeFields(rest: Bytes, mode: Bytes, number: Bytes, name: Bytes) {
    SPACE !in mode && SPACE !in number && rest == mode + [SPACE] + number + [SPACE] + name
  }

  /**
   What a header line says: whatever its mode, the number must be one that fits 64 bits, and the name
   is all that follows, spaces included. Fewer fields make it malformed, another number a bad size.
   */
  lemma FieldsAreRead(rest: Bytes, mode: Bytes, number: Bytes, name: Bytes)
    requires ThreeFields(rest, mode, number, name)
    ensures ParseFields(rest) ==
            if ParseU64(number).Some? then Parsed(ParseU64(number).value, name) else Rejected(BadSize)
  {
    hide ParseU64;
    var tail := number + [SPACE] + name;
    SpaceAfter(mode, tail);
    assert rest == mode + [SPACE] + tail && rest[|mode| + 1..] == tail;
    SpaceAfter(number, name);
    assert tail[..|number|] == number && tail[|number| + 1..] == name;
  }

  lemma FieldsAreFound(rest: Bytes) returns (mode: Bytes, number: Bytes, name: Bytes)
    requires ParseFields(rest) != Rejected(Malformed)
    ensures ThreeFields(rest, mode, number, name)
  {
    hide ParseU64;
    hide FindSpace;
    var i := FindSpace(rest);
    var tail := rest[i + 1..];
    var j := FindSpace(tail);
    mode, number, name := rest[..i], tail[..j], tail[j + 1..];
    assert tail == number + [SPACE] + name;
    assert rest == mode + [SPACE] + tail;
  }

  lemma MalformedExactly(rest: Bytes)
    ensures ParseFields(rest) == Rejected(Malformed) <==>
            !exists mode, number, name :: ThreeFields(rest, mode, number, name)
  {
    hide ThreeFields;
    hide ParseFields;
    if mode, number, name :| ThreeFields(rest, mode, number, name) {
      FieldsAreRead(rest, mode, number, name);
    } else if ParseFields(rest) != Rejected(Malformed) {
      var mode, number, name := FieldsAreFound(rest);
    }
  }

  /** A number is digits, at least one, after at most one plus sign, and fits 64 bits. */
  lemma NumbersAreRead(s: Bytes)
    ensures var digits := if s != [] && s[0] == '+' as int then s[1..] else s;
            && (ParseU64(s).Some? <==>
                  digits != [] && AllDigits(digits) && Decimal(digits) <= 0xFFFF_FFFF_FFFF_FFFF)
            && (ParseU64(s).Some? ==> ParseU64(s).value == Decimal(digits))
  {
    DigitsParseExactly(if s != [] && s[0] == '+' as int then s[1..] else s);
  }

  /** A header is read from its line without trailing newlines, and refused first of all if it is no text. */
  lemma HeaderIsRead(buf: Bytes)
    requires buf != [] && buf[0] < 0x80 && buf[0] != NL
    ensures ParseHeader(buf) == Rejected(InvalidUtf8) <==> !ValidUtf8(buf)
    ensures ValidUtf8(buf) ==> TrimNewlines(buf) != [] && ParseHeader(buf) == ParseFields(TrimNewlines(buf)[1..])
  {
    hide ParseU64;
  }

  /** `{kind}{mode} {size} {name}\n`; the mode is four digits. */
  function Header(kind: byte, mode: Bytes, size: nat, name: Bytes): Bytes {
    [kind] + mode + [SPACE] + PrintU64(size) + [SPACE] + name + [NL]
  }

  const MODE_0644: Bytes := [48, 54, 52, 52]
  const MODE_0755: Bytes := [48, 55, 53, 53]

  function FileHeader(size: nat, name: Bytes): Bytes { Header(LETTER_C, MODE_0644, size, name) }

  function DirHeader(name: Bytes): Bytes { Header(LETTER_D, MODE_0755, 0, name) }

  predicate EndsInNewline(name: Bytes) { name != [] && name[|name| - 1] == NL }

  lemma {:induction false} TrimAfter(front: Bytes, name: Bytes)
    requires front != [] && front[|front| - 1] != NL
    ensures TrimNewlines(front + name) == front + TrimNewlines(name)
    decreases |name|
  {
    if EndsInNewline(name) {
      assert (front + name)[..|front + name| - 1] == front + name[..|name| - 1];
      TrimAfter(front, name[..|name| - 1]);
    } else if name == [] {
      assert front + name == front;
      assert front + TrimNewlines(name) == front;
    }
  }

  lemma {:induction false} SpaceAfter(word: Bytes, rest: Bytes)
    requires forall i :: 0 <= i < |word| ==> word[i] != SPACE
    ensures FindSpace(word + [SPACE] + rest) == |word|
  {
    if word == [] {
      assert (word + [SPACE] + rest)[0] == SPACE;
    } else {
      assert (word + [SPACE] + rest)[1..] == word[1..] + [SPACE] + rest;
      SpaceAfter(word[1..], rest);
    }
  }

  lemma TrimHeader(kind: byte, mode: Bytes, size: nat, name: Bytes)
    requires kind != NL
    ensures TrimNewlines(Header(kind, mode, size, name)) ==
              [kind] + mode + [SPACE] + PrintU64(size) + [SPACE] + TrimNewlines(name)
  {
    var front := [kind] + mode + [SPACE] + PrintU64(size) + [SPACE];
    assert Header(kind, mode, size, name) == front + (name + [NL]);
    TrimAfter(front, name + [NL]);
    assert (name + [NL])[..|name|] == name;
  }

  lemma HeaderIsUtf8(kind: byte, mode: Bytes, size: nat, name: Bytes)
    requires kind < 0x80 && (forall i :: 0 <= i < |mode| ==> mode[i] < 0x80) && ValidUtf8(name)
    ensures ValidUtf8(Header(kind, mode, size, name))
  {
    var front := [kind] + mode + [SPACE] + PrintU64(size) + [SPACE];
    AsciiIsUtf8(front);
    AsciiIsUtf8([NL]);
    Utf8Concat(front, name);
    Utf8Concat(front + name, [NL]);
  }

  lemma FieldsParse(mode: Bytes, size: nat, name: Bytes)
    requires size <= U64_MAX && forall i :: 0 <= i < |mode| ==> mode[i] != SPACE
    ensures ParseFields(mode + [SPACE] + (PrintU64(size) + [SPACE] + name)) == Parsed(size, name)
  {
    hide ParseFields;
    hide ParseU64;
    hide PrintU64;
    assert mode + [SPACE] + (PrintU64(size) + [SPACE] + name) == mode + [SPACE] + PrintU64(size) + [SPACE] + name;
    FieldsAreRead(mode + [SPACE] + (PrintU64(size) + [SPACE] + name), mode, PrintU64(size), name);
    PrintedNumberParses(size);
  }

  lemma HeaderParses(kind: byte, mode: Bytes, size: nat, name: Bytes)
    requires kind < 0x80 && kind != NL && size <= U64_MAX && ValidUtf8(name)
    requires forall i :: 0 <= i < |mode| ==> mode[i] != SPACE && mode[i] < 0x80
    ensures ParseHeader(Header(kind, mode, size, name)) == Parsed(size, TrimNewlines(name))
  {
    HeaderIsUtf8(kind, mode, size, name);
    TrimHeader(kind, mode, size, name);
    var rest := mode + [SPACE] + (PrintU64(size) + [SPACE] + TrimNewlines(name));
    Regroup(kind, mode, PrintU64(size), TrimNewlines(name));
    ParseLine(Header(kind, mode, size, name), kind, rest);
    FieldsParse(mode, size, TrimNewlines(name));
  }

  lemma Regroup(kind: byte, mode: Bytes, number: Bytes, name: Bytes)
    ensures [kind] + mode + [SPACE] + number + [SPACE] + name == [kind] + (mode + [SPACE] + (number + [SPACE] + name))
  {
  }

  lemma ParseLine(buf: Bytes, kind: byte, rest: Bytes)
    requires buf != [] && buf[0] < 0x80 && buf[0] != NL
    requires ValidUtf8(buf) && TrimNewlines(buf) == [kind] + rest
    ensures ParseHeader(buf) == ParseFields(rest)
  {
    assert ([kind] + rest)[1..] == rest;
  }

  lemma ModesAreAscii()
    ensures forall i :: 0 <= i < |MODE_0644| ==> MODE_0644[i] != SPACE && MODE_0644[i] < 0x80
    ensures forall i :: 0 <= i < |MODE_0755| ==> MODE_0755[i] != SPACE && MODE_0755[i] < 0x80
  {
  }

  lemma TrimIsIdentity(name: Bytes)
    ensures TrimNewlines(name) == name <==> !EndsInNewline(name)
  {
  }

  /**
   Printer and parser undo each other exactly when the name does not end in a newline: for every
   64-bit size and every name, spaces included, the printed header parses to the size and to the
   name without its trailing newlines.
   */
  lemma HeaderRoundTrip(size: nat, name: Bytes)
    requires size <= U64_MAX && ValidUtf8(name)
    ensures ParseHeader(FileHeader(size, name)) == Parsed(size, TrimNewlines(name))
    ensures ParseHeader(DirHeader(name)) == Parsed(0, TrimNewlines(name))
    ensures ParseHeader(FileHeader(size, name)) == Parsed(size, name) <==> !EndsInNewline(name)
    ensures ParseHeader(DirHeader(name)) == Parsed(0, name) <==> !EndsInNewline(name)
  {
    ModesAreAscii();
    TrimIsIdentity(name);
    HeaderParses(LETTER_C, MODE_0644, size, name);
    HeaderParses(LETTER_D, MODE_0755, 0, name);
  }

  lemma FirstSpaceStays(u: Bytes, v: Bytes)
    requires u <= v && FindSpace(u) < |u|
    ensures FindSpace(v) == FindSpace(u)
  {
    assert v[FindSpace(u)] == SPACE;
  }

  lemma FieldsExtend(u: Bytes, v: Bytes)
    requires u <= v && ParseFields(u).Parsed?
    ensures ParseFields(v).Parsed? && ParseFields(v).size == ParseFields(u).size
  {
    hide FindSpace;
    hide ParseU64;
    FirstSpaceStays(u, v);
    var i := FindSpace(u);
    FirstSpaceStays(u[i + 1..], v[i + 1..]);
    var j := FindSpace(u[i + 1..]);
    assert u[i + 1..][..j] == v[i + 1..][..j];
  }

  /** Of a header line cut short and the whole line, if both parse, both announce the same size. */
  lemma SizeIsSettled(a: Bytes, b: Bytes)
    requires a != [] && a[0] < 0x80 && a[0] != NL
    requires ParseHeader(a).Parsed? && ParseHeader(a + b).Parsed?
    ensures ParseHeader(a).size == ParseHeader(a + b).size
  {
    hide ParseFields;
    hide ValidUtf8;
    var u, v := TrimNewlines(a), TrimNewlines(a + b);
    assert u == a[..|u|] == (a + b)[..|u|] <= v;
    if u != [] {
      FieldsExtend(u[1..], v[1..]);
    }
  }
}
