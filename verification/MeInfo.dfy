/** me.info: what the client writes after registration and reads back on its next run. */
module MeInfo {
  import opened ByteStrings
  import opened Wire

  const NEWLINE: byte := '\n' as byte

  // ----- Hexadecimal -----

  function HexDigit(n: nat): byte
    requires n < 16
  {
    if n < 10 then (n + '0' as nat) as byte else (n - 10 + 'A' as nat) as byte
  }

  function HexValue(d: byte): Option<nat> {
    if '0' as byte <= d <= '9' as byte then Some(d as nat - '0' as nat)
    else if 'A' as byte <= d <= 'F' as byte then Some(d as nat - 'A' as nat + 10)
    else if 'a' as byte <= d <= 'f' as byte then Some(d as nat - 'a' as nat + 10)
    else None
  }

  function Hex(b: Bytes): (h: Bytes)
    ensures |h| == 2 * |b|
    ensures forall i :: 0 <= i < |h| ==> HexValue(h[i]).Some?
  {
    if b == [] then [] else [HexDigit(b[0] as nat / 16), HexDigit(b[0] as nat % 16)] + Hex(b[1..])
  }

  /** `None` stands for the exception on an odd length or a character that is no digit. */
  function Unhex(h: Bytes): Option<Bytes> {
    if h == [] then Some([])
    else if |h| == 1 then None
    else
      match (HexValue(h[0]), HexValue(h[1]), Unhex(h[2..]))
      case (Some(a), Some(b), Some(rest)) => if a < 16 && b < 16 then Some([(16 * a + b) as byte] + rest) else None
      case _ => None
  }

  lemma {:induction false} HexRoundTrip(b: Bytes)
    ensures Unhex(Hex(b)) == Some(b)
  {
    if b != [] {
      HexRoundTrip(b[1..]);
      assert Hex(b)[2..] == Hex(b[1..]);
      assert b == [b[0]] + b[1..];
    }
  }

  // ----- Base64 -----

  const PAD: byte := '=' as byte

  function Sextet(n: nat): byte
    requires n < 64
  {
    if n < 26 then (n + 'A' as nat) as byte
    else if n < 52 then (n - 26 + 'a' as nat) as byte
    else if n < 62 then (n - 52 + '0' as nat) as byte
    else if n == 62 then '+' as byte
    else '/' as byte
  }

  function SextetValue(d: byte): (v: Option<nat>)
    ensures v.Some? ==> v.value < 64
  {
    if 'A' as byte <= d <= 'Z' as byte then Some(d as nat - 'A' as nat)
    else if 'a' as byte <= d <= 'z' as byte then Some(d as nat - 'a' as nat + 26)
    else if '0' as byte <= d <= '9' as byte then Some(d as nat - '0' as nat + 52)
    else if d == '+' as byte then Some(62)
    else if d == '/' as byte then Some(63)
    else None
  }

  lemma SextetRoundTrip(n: nat)
    requires n < 64
    ensures SextetValue(Sextet(n)) == Some(n)
  {
  }

  type Digit = n: nat | n < 64

  /** The four sextets of three bytes, most significant first. */
  function Group(a: byte, b: byte, c: byte): (g: seq<Digit>)
    ensures |g| == 4
  {
    [a as nat / 4, a as nat % 4 * 16 + b as nat / 16, b as nat % 16 * 4 + c as nat / 64, c as nat % 64]
  }

  function Digits(b: Bytes): seq<Digit> {
    if b == [] then []
    else if |b| == 1 then Group(b[0], 0, 0)[..2]
    else if |b| == 2 then Group(b[0], b[1], 0)[..3]
    else Group(b[0], b[1], b[2]) + Digits(b[3..])
  }

  function Chars(ds: seq<Digit>): (s: Bytes)
    ensures |s| == |ds| && forall i :: 0 <= i < |s| ==> s[i] == Sextet(ds[i])
  {
    seq(|ds|, i requires 0 <= i < |ds| => Sextet(ds[i]))
  }

  function Base64(b: Bytes): Bytes {
    Chars(Digits(b)) + (if |b| % 3 == 1 then [PAD, PAD] else if |b| % 3 == 2 then [PAD] else [])
  }

  /** The decoder skips every character outside the alphabet, the padding included. */
  function Scan(s: Bytes): seq<Digit> {
    if s == [] then [] else
      (match SextetValue(s[0])
       case Some(v) => [v]
       case None => []) + Scan(s[1..])
  }

  /** Whole bytes are delivered; bits left over at the end are dropped. */
  function Undigits(ds: seq<Digit>): Bytes {
    if |ds| < 2 then []
    else
      var a: nat := ds[0] as int * 4 + ds[1] as int / 16;
      if |ds| == 2 then [a as byte]
      else
        var b: nat := ds[1] as int % 16 * 16 + ds[2] as int / 4;
        if |ds| == 3 then [a as byte, b as byte]
        else
          var c: nat := ds[2] as int % 4 * 64 + ds[3] as int;
          [a as byte, b as byte, c as byte] + Undigits(ds[4..])
  }

  function Unbase64(s: Bytes): Bytes {
    Undigits(Scan(s))
  }

  lemma UndigitsGroup(a: byte, b: byte, c: byte, rest: seq<Digit>)
    ensures Undigits(Group(a, b, c) + rest) == [a, b, c] + Undigits(rest)
  {
    assert (Group(a, b, c) + rest)[4..] == rest;
  }

  lemma {:induction false} UndigitsDigits(b: Bytes)
    ensures Undigits(Digits(b)) == b
    ensures b != [] ==> |Digits(b)| >= 2
  {
    if |b| >= 3 {
      UndigitsDigits(b[3..]);
      UndigitsGroup(b[0], b[1], b[2], Digits(b[3..]));
      assert b == [b[0], b[1], b[2]] + b[3..];
    } else if |b| == 2 {
      assert b == [b[0], b[1]];
    } else if |b| == 1 {
      assert b == [b[0]];
    }
  }

  lemma {:induction false} ScanAppend(s: Bytes, t: Bytes)
    ensures Scan(s + t) == Scan(s) + Scan(t)
  {
    if s == [] {
      assert s + t == t;
    } else {
      assert (s + t)[1..] == s[1..] + t;
      ScanAppend(s[1..], t);
    }
  }

  lemma {:induction false} ScanChars(ds: seq<Digit>)
    ensures Scan(Chars(ds)) == ds
  {
    if ds != [] {
      SextetRoundTrip(ds[0]);
      assert Chars(ds)[1..] == Chars(ds[1..]);
      ScanChars(ds[1..]);
      assert ds == [ds[0]] + ds[1..];
    }
  }

  /** The padding is skipped: scanning finds exactly the digits that were printed. */
  lemma Base64Scan(b: Bytes)
    ensures Scan(Base64(b)) == Digits(b)
  {
    var ds := Digits(b);
    var pad := Base64(b)[|ds|..];
    ScanChars(ds);
    assert Base64(b) == Chars(ds) + pad;
    assert pad == [] || pad == [PAD] || pad == [PAD, PAD];
    assert Scan(pad) == [] by {
      assert [PAD][1..] == [] && [PAD, PAD][1..] == [PAD];
      assert Scan([]) == [] && Scan([PAD]) == [] + Scan([]) && Scan([PAD, PAD]) == [] + Scan([PAD]);
    }
    ScanAppend(Chars(ds), pad);
    assert ds + [] == ds;
  }

  lemma Base64RoundTrip(b: Bytes)
    ensures Unbase64(Base64(b)) == b
    ensures Base64(b) == [] <==> b == []
  {
    Base64Scan(b);
    UndigitsDigits(b);
  }

  // ----- The alphabets and the layout, as RFC 4648 has them -----

  const HEX_DIGITS: string := "0123456789ABCDEF"

  /** The alphabet: A to Z, a to z, 0 to 9, + and /, in this order. */
  lemma SextetShape(n: nat)
    requires n < 64
    ensures Sextet(0) == 'A' as byte && Sextet(25) == 'Z' as byte && Sextet(26) == 'a' as byte
    ensures Sextet(51) == 'z' as byte && Sextet(52) == '0' as byte && Sextet(61) == '9' as byte
    ensures Sextet(62) == '+' as byte && Sextet(63) == '/' as byte
    ensures n < 61 && n != 25 && n != 51 ==> Sextet(n + 1) as nat == Sextet(n) as nat + 1
  {
  }

  /** Every byte is printed as two upper-case digits, the higher half first. */
  lemma {:induction false} HexShape(b: Bytes, i: nat)
    requires i < |b|
    ensures Hex(b)[2 * i] == HEX_DIGITS[b[i] as nat / 16] as byte
    ensures Hex(b)[2 * i + 1] == HEX_DIGITS[b[i] as nat % 16] as byte
  {
    if i == 0 {
      HexDigitShape(b[0] as nat / 16);
      HexDigitShape(b[0] as nat % 16);
    } else {
      HexShape(b[1..], i - 1);
    }
  }

  lemma HexDigitShape(n: nat)
    requires n < 16
    ensures HexDigit(n) == HEX_DIGITS[n] as byte
  {
  }

  const LOWER_DIGITS: string := "0123456789abcdef"

  /** The sixteen digits are read in either case, and nothing else is read as one. */
  lemma HexValueShape(d: byte, n: nat)
    requires n < 16
    ensures HexValue(HEX_DIGITS[n] as byte) == HexValue(LOWER_DIGITS[n] as byte) == Some(n)
    ensures HexValue(d).Some? ==>
              var v := HexValue(d).value;
              v < 16 && (d as char == HEX_DIGITS[v] || d as char == LOWER_DIGITS[v])
  {
  }

  /** Reading succeeds exactly on an even number of digits, and two of them make a byte. */
  lemma {:induction false} UnhexReads(h: Bytes)
    ensures Unhex(h).Some? <==> |h| % 2 == 0 && forall i :: 0 <= i < |h| ==> HexValue(h[i]).Some?
    ensures Unhex(h).Some? ==>
              && |h| == 2 * |Unhex(h).value|
              && forall i :: 0 <= i < |Unhex(h).value| ==>
                   Unhex(h).value[i] as int == 16 * HexValue(h[2 * i]).value + HexValue(h[2 * i + 1]).value
  {
    if |h| >= 2 {
      UnhexReads(h[2..]);
      assert forall i :: 2 <= i < |h| ==> h[i] == h[2..][i - 2];
    }
  }

  /** A character is read as a digit exactly when it is the one printed for it. */
  lemma SextetValueShape(d: byte)
    ensures SextetValue(d).Some? ==> Sextet(SextetValue(d).value) == d
    ensures SextetValue(PAD) == None
  {
  }

  /** The number whose digits to the base 64 are these. */
  function Number64(a: Digit, b: Digit, c: Digit, d: Digit): int {
    0x4_0000 * a as int + 0x1000 * b as int + 0x40 * c as int + d as int
  }

  lemma GroupNumber(a: byte, b: byte, c: byte)
    ensures var g := Group(a, b, c);
            Number64(g[0], g[1], g[2], g[3]) == 0x1_0000 * a as int + 0x100 * b as int + c as int
  {
  }

  /** Three bytes are printed as the four digits of their number, before the rest. */
  lemma Base64Groups(b: Bytes) returns (ds: seq<Digit>)
    requires |b| >= 3
    ensures |ds| == 4 && Base64(b) == Chars(ds) + Base64(b[3..])
    ensures Number64(ds[0], ds[1], ds[2], ds[3]) == 0x1_0000 * b[0] as int + 0x100 * b[1] as int + b[2] as int
  {
    ds := Group(b[0], b[1], b[2]);
    GroupNumber(b[0], b[1], b[2]);
    assert Chars(ds + Digits(b[3..])) == Chars(ds) + Chars(Digits(b[3..]));
  }

  /** One or two last bytes are printed as the first digits of their number, filled up with zero bits, and padding. */
  lemma Base64End(b: Bytes) returns (ds: seq<Digit>)
    requires 1 <= |b| <= 2
    ensures |ds| == 4 && Number64(ds[0], ds[1], ds[2], ds[3]) ==
                         0x1_0000 * b[0] as int + 0x100 * (if |b| == 2 then b[1] as int else 0)
    ensures Base64(b) == if |b| == 1 then Chars(ds[..2]) + [PAD, PAD] else Chars(ds[..3]) + [PAD]
  {
    ds := Group(b[0], if |b| == 2 then b[1] else 0, 0);
    GroupNumber(b[0], if |b| == 2 then b[1] else 0, 0);
  }

  lemma {:induction false} Base64Length(b: Bytes)
    ensures |Base64(b)| == 4 * ((|b| + 2) / 3)
  {
    DigitsLength(b);
  }

  // ----- Lines -----

  predicate Free(s: Bytes, d: byte) {
    forall i :: 0 <= i < |s| ==> s[i] != d
  }

  /** Splitting at every newline: always at least one line. */
  function Lines(s: Bytes): (ls: seq<Bytes>)
    ensures |ls| >= 1
  {
    if s == [] then [[]]
    else
      var rest := Lines(s[1..]);
      if s[0] == NEWLINE then [[]] + rest else [[s[0]] + rest[0]] + rest[1..]
  }

  lemma {:induction false} LinesOfLine(s: Bytes)
    requires Free(s, NEWLINE)
    ensures Lines(s) == [s]
  {
    if s != [] {
      LinesOfLine(s[1..]);
      assert [s[0]] + s[1..] == s;
    }
  }

  lemma {:induction false} LinesSplit(s: Bytes, t: Bytes)
    requires Free(s, NEWLINE)
    ensures Lines(s + [NEWLINE] + t) == [s] + Lines(t)
  {
    var u := s + [NEWLINE] + t;
    if s == [] {
      assert u[1..] == t;
    } else {
      assert u[1..] == s[1..] + [NEWLINE] + t;
      LinesSplit(s[1..], t);
      assert [s[0]] + s[1..] == s;
    }
  }

  /** The first line holds no newline, and is the text up to the first one. */
  lemma {:induction false} FirstLine(s: Bytes)
    ensures Free(Lines(s)[0], NEWLINE) && Lines(s)[0] <= s
  {
    if s != [] {
      FirstLine(s[1..]);
    }
  }

  /** The buffer is turned into a string that ends at the first zero byte. */
  function CString(s: Bytes): (r: Bytes)
    ensures Free(r, 0) && r <= s && (r != s ==> s[|r|] == 0)
    ensures Free(s, 0) ==> r == s
  {
    if s == [] || s[0] == 0 then [] else [s[0]] + CString(s[1..])
  }

  function DropEmptyLast(ls: seq<Bytes>): seq<Bytes>
    requires |ls| >= 1
  {
    if ls[|ls| - 1] == [] then ls[..|ls| - 1] else ls
  }

  /**
   * `readInformationFile`: an empty file has no lines. The file is read into a buffer of exactly its size and
   * the string is built from the pointer alone, so it goes on through the bytes `beyond` the buffer up to the
   * first zero byte.
   */
  function InfoLines(text: Bytes, beyond: Bytes): seq<Bytes> {
    if text == [] then [] else DropEmptyLast(Lines(CString(text + beyond)))
  }

  // ----- The file -----

  datatype Identity = Identity(id: Bytes, priv: Bytes)

  /** What a registering client writes. */
  function Print(name: Bytes, id: Bytes, priv: Bytes): Bytes {
    name + [NEWLINE] + Hex(id) + [NEWLINE] + Base64(priv)
  }

  /** What a later run makes of it; `None` covers the rejected file and the exception of `unhex`. */
  function Load(name: Bytes, text: Bytes, beyond: Bytes): Option<Identity> {
    var ls := InfoLines(text, beyond);
    if |ls| != 3 || ls[0] != name then None
    else match Unhex(ls[1])
      case None => None
      case Some(id) =>
        if |id| > UUID_LENGTH then None else Some(Identity(PadTo(id, UUID_LENGTH), Unbase64(ls[2])))
  }

  lemma Base64Free(b: Bytes)
    ensures Free(Base64(b), NEWLINE) && Free(Base64(b), 0)
  {
    var ds := Digits(b);
    assert forall i :: 0 <= i < |ds| ==> SextetValue(Sextet(ds[i])).Some?;
  }

  lemma HexFree(id: Bytes)
    ensures Free(Hex(id), NEWLINE) && Free(Hex(id), 0)
  {
    assert HexValue(NEWLINE) == None && HexValue(0) == None;
  }

  lemma {:induction false} CStringAppend(s: Bytes, t: Bytes)
    requires Free(s, 0)
    ensures CString(s + t) == s + CString(t)
  {
    if s == [] {
      assert s + t == t;
    } else {
      assert (s + t)[1..] == s[1..] + t;
      CStringAppend(s[1..], t);
    }
  }

  /** What the bytes beyond the buffer add to the last line; `None` if they add another line. */
  function Tail(x: Bytes): (t: Option<Bytes>)
    ensures t.Some? ==> Free(t.value, NEWLINE) && (x == t.value || x == t.value + [NEWLINE])
  {
    if Free(x, NEWLINE) then Some(x)
    else if x[|x| - 1] == NEWLINE && Free(x[..|x| - 1], NEWLINE) then Some(x[..|x| - 1])
    else None
  }

  /** The lines of a last line that is followed by these bytes, once an empty last line is dropped. */
  lemma LastLines(d: Bytes, x: Bytes)
    requires Free(d, NEWLINE)
    ensures var ls := DropEmptyLast(Lines(d + x));
            if d + x == [] then ls == [] else if Tail(x).Some? then ls == [d + Tail(x).value] else |ls| >= 2
  {
    if Free(x, NEWLINE) {
      LinesOfLine(d + x);
    } else {
      var k := FirstNewline(x);
      var u := d + x[..k];
      assert d + x == u + [NEWLINE] + x[k + 1..];
      LinesSplit(u, x[k + 1..]);
      if k == |x| - 1 {
        assert x[..|x| - 1] == x[..k] && x[k + 1..] == [] && Lines([]) == [[]];
        assert Tail(x) == Some(x[..k]);
      } else {
        assert Tail(x) == None by {
          assert x[..|x| - 1][k] == NEWLINE;
        }
        MoreLines(x[k + 1..]);
        assert Lines(d + x)[1..] == Lines(x[k + 1..]);
      }
    }
  }

  function FirstNewline(x: Bytes): (k: nat)
    requires !Free(x, NEWLINE)
    ensures k < |x| && x[k] == NEWLINE && Free(x[..k], NEWLINE)
  {
    if x[0] == NEWLINE then 0 else
      assert !Free(x[1..], NEWLINE) by {
        var i :| 0 <= i < |x| && x[i] == NEWLINE;
        assert x[1..][i - 1] == NEWLINE;
      }
      FirstNewline(x[1..]) + 1
  }

  lemma MoreLines(s: Bytes)
    requires s != []
    ensures Lines(s) != [[]]
  {
    assert s[0] != NEWLINE ==> Lines(s)[0] == [s[0]] + Lines(s[1..])[0];
  }

  /** Further digits leave the decoded bytes alone exactly when they complete no byte. */
  predicate AddsNoByte(b: Bytes, ds: seq<Digit>) {
    |ds| <= if |b| % 3 == 0 then 1 else 0
  }

  lemma {:induction false} UndigitsLength(ds: seq<Digit>)
    ensures |Undigits(ds)| == 3 * |ds| / 4
  {
    if |ds| >= 4 {
      UndigitsLength(ds[4..]);
    }
  }

  lemma {:induction false} DigitsLength(b: Bytes)
    ensures |Digits(b)| == (4 * |b| + 2) / 3
  {
    if |b| >= 3 {
      DigitsLength(b[3..]);
    }
  }

  /** Further digits behind the printed ones only ever add bytes at the end. */
  lemma {:induction false} PrintedFirst(b: Bytes, ds: seq<Digit>)
    ensures b <= Undigits(Digits(b) + ds)
  {
    if |b| >= 3 {
      var rest := Digits(b[3..]) + ds;
      PrintedFirst(b[3..], ds);
      UndigitsGroup(b[0], b[1], b[2], rest);
      assert Digits(b) + ds == Group(b[0], b[1], b[2]) + rest;
      assert b == [b[0], b[1], b[2]] + b[3..];
    } else {
      PrintedShort(b, ds);
    }
  }

  lemma PrintedShort(b: Bytes, ds: seq<Digit>)
    requires |b| < 3
    ensures b <= Undigits(Digits(b) + ds)
  {
  }

  lemma ExtraDigits(b: Bytes, ds: seq<Digit>)
    ensures Undigits(Digits(b) + ds) == b <==> AddsNoByte(b, ds)
  {
    PrintedFirst(b, ds);
    DigitsLength(b);
    UndigitsLength(Digits(b) + ds);
    SameLength(|b|, |ds|);
  }

  lemma SameLength(n: nat, e: nat)
    ensures 3 * ((4 * n + 2) / 3 + e) / 4 == n <==> e <= if n % 3 == 0 then 1 else 0
  {
  }

  lemma Base64Followed(b: Bytes, t: Bytes)
    ensures Unbase64(Base64(b) + t) == b <==> AddsNoByte(b, Scan(t))
  {
    var ds := Digits(b);
    Base64Scan(b);
    ScanAppend(Base64(b), t);
    ExtraDigits(b, Scan(t));
  }

  lemma LinesOfThree(a: Bytes, b: Bytes, d: Bytes)
    requires Free(a, NEWLINE) && Free(b, NEWLINE)
    ensures Lines(a + [NEWLINE] + b + [NEWLINE] + d) == [a, b] + Lines(d)
  {
    LinesSplit(b, d);
    LinesSplit(a, b + [NEWLINE] + d);
    assert a + [NEWLINE] + b + [NEWLINE] + d == a + [NEWLINE] + (b + [NEWLINE] + d);
  }

  lemma SplitPrinted(name: Bytes, id: Bytes, priv: Bytes, x: Bytes)
    requires Free(name, NEWLINE)
    ensures Lines(Print(name, id, priv) + x) == [name, Hex(id)] + Lines(Base64(priv) + x)
  {
    HexFree(id);
    LinesOfThree(name, Hex(id), Base64(priv) + x);
    var front := name + [NEWLINE] + Hex(id) + [NEWLINE];
    assert (front + Base64(priv)) + x == front + (Base64(priv) + x);
  }

  lemma DropBehind(front: seq<Bytes>, ls: seq<Bytes>)
    requires |ls| >= 1
    ensures DropEmptyLast(front + ls) == front + DropEmptyLast(ls)
  {
  }

  lemma PrintFree(name: Bytes, id: Bytes, priv: Bytes)
    requires Free(name, 0)
    ensures Free(Print(name, id, priv), 0)
  {
    Base64Free(priv);
    HexFree(id);
  }

  /** The lines of a printed file: name, hex id, and what the key's line has become. */
  lemma PrintedLines(name: Bytes, id: Bytes, priv: Bytes, beyond: Bytes)
    requires Free(name, NEWLINE) && Free(name, 0)
    ensures var x := CString(beyond);
            var ls := InfoLines(Print(name, id, priv), beyond);
            if priv == [] && x == [] then ls == [name, Hex(id)]
            else if Tail(x).Some? then ls == [name, Hex(id), Base64(priv) + Tail(x).value]
            else |ls| >= 4 && ls[..2] == [name, Hex(id)]
  {
    var x, key := CString(beyond), Base64(priv);
    PrintFree(name, id, priv);
    CStringAppend(Print(name, id, priv), beyond);
    SplitPrinted(name, id, priv, x);
    DropBehind([name, Hex(id)], Lines(key + x));
    Base64Free(priv);
    Base64RoundTrip(priv);
    LastLines(key, x);
  }

  /**
   * The bytes beyond the buffer do no harm: they add no line and no byte to the key, and stand in for the line of
   * an empty key.
   */
  predicate Harmless(priv: Bytes, beyond: Bytes) {
    var x := CString(beyond);
    && (priv == [] ==> x != [])
    && Tail(x).Some? && AddsNoByte(priv, Scan(Tail(x).value))
  }

  /** Printing and loading undo each other exactly for names without newline or zero byte and harmless bytes beyond. */
  lemma InfoRoundTrip(name: Bytes, id: Bytes, priv: Bytes, beyond: Bytes)
    requires |id| == UUID_LENGTH
    ensures Load(name, Print(name, id, priv), beyond) == Some(Identity(id, priv))
            <==> Free(name, NEWLINE) && Free(name, 0) && Harmless(priv, beyond)
  {
    if Free(name, NEWLINE) && Free(name, 0) {
      PrintedLines(name, id, priv, beyond);
      HexRoundTrip(id);
      if Tail(CString(beyond)).Some? {
        Base64Followed(priv, Tail(CString(beyond)).value);
      }
    } else {
      FirstLine(CString(Print(name, id, priv) + beyond));
    }
  }

  /** When a zero byte follows the buffer, names without newline or zero byte and non-empty keys come back. */
  lemma TerminatedRoundTrip(name: Bytes, id: Bytes, priv: Bytes, beyond: Bytes)
    requires |id| == UUID_LENGTH && beyond != [] && beyond[0] == 0
    ensures Load(name, Print(name, id, priv), beyond) == Some(Identity(id, priv))
            <==> Free(name, NEWLINE) && Free(name, 0) && priv != []
  {
    InfoRoundTrip(name, id, priv, beyond);
    assert CString(beyond) == [] && Scan([]) == [];
  }

  /** A line beyond the buffer makes the client reject the very file it printed. */
  lemma RejectedByLine(name: Bytes, id: Bytes, priv: Bytes, line: Bytes)
    requires line != [] && Free(line, NEWLINE) && Free(line, 0)
    ensures Load(name, Print(name, id, priv), [NEWLINE] + line + [0]) == None
  {
    var beyond := [NEWLINE] + line + [0];
    CStringAppend([NEWLINE] + line, [0]);
    var x := CString(beyond);
    assert x == [NEWLINE] + line;
    assert x[1..] == line && x[..|x| - 1][0] == NEWLINE;
    assert Tail(x) == None;
    if Free(name, NEWLINE) && Free(name, 0) {
      PrintedLines(name, id, priv, beyond);
    } else {
      FirstLine(CString(Print(name, id, priv) + beyond));
    }
  }

  /** Two letters beyond the buffer give the client a longer key, and no error. */
  lemma LongerKey(name: Bytes, id: Bytes, priv: Bytes)
    requires |id| == UUID_LENGTH && Free(name, NEWLINE) && Free(name, 0) && |priv| % 3 == 0
    ensures var loaded := Load(name, Print(name, id, priv), ['A' as byte, 'A' as byte, 0]);
            loaded.Some? && loaded.value.id == id && loaded.value.priv != priv
  {
    var aa := ['A' as byte, 'A' as byte];
    var beyond := aa + [0];
    CStringAppend(aa, [0]);
    assert CString(beyond) == aa && Tail(aa) == Some(aa) by {
      assert CString([0]) == [];
    }
    assert Scan(aa) == [0, 0] by {
      assert aa[1..] == ['A' as byte] && ['A' as byte][1..] == [];
      assert Scan(['A' as byte]) == [0] + Scan([]);
    }
    PrintedLines(name, id, priv, beyond);
    HexRoundTrip(id);
    Base64Followed(priv, aa);
    assert beyond == ['A' as byte, 'A' as byte, 0];
  }

  /** Whatever lies beyond the buffer, the id is never wrong: a printed file gives it back or is rejected. */
  lemma LoadedId(name: Bytes, id: Bytes, priv: Bytes, beyond: Bytes)
    requires |id| == UUID_LENGTH && Load(name, Print(name, id, priv), beyond).Some?
    ensures Load(name, Print(name, id, priv), beyond).value.id == id
  {
    if Free(name, NEWLINE) && Free(name, 0) {
      PrintedLines(name, id, priv, beyond);
      HexRoundTrip(id);
    } else {
      FirstLine(CString(Print(name, id, priv) + beyond));
    }
  }

  /** A second line begins behind the first newline. */
  lemma FirstLineEnds(s: Bytes)
    requires |Lines(s)| >= 2
    ensures Lines(s)[0] + [NEWLINE] <= s
  {
    assert !Free(s, NEWLINE) by {
      if Free(s, NEWLINE) {
        LinesOfLine(s);
      }
    }
    var k := FirstNewline(s);
    assert s == s[..k] + [NEWLINE] + s[k + 1..];
    LinesSplit(s[..k], s[k + 1..]);
  }

  /** A file is taken only by the user whose name is its whole first line. */
  lemma LoadedName(name: Bytes, text: Bytes, beyond: Bytes)
    requires Load(name, text, beyond).Some?
    ensures name + [NEWLINE] <= CString(text + beyond)
  {
    FirstLineEnds(CString(text + beyond));
  }

  /** The file printed for one user is rejected for every other. */
  lemma ForeignFile(name: Bytes, other: Bytes, id: Bytes, priv: Bytes, beyond: Bytes)
    requires Free(name, NEWLINE) && Free(name, 0) && other != name
    ensures Load(other, Print(name, id, priv), beyond) == None
  {
    PrintedLines(name, id, priv, beyond);
  }

  lemma LoadedKey(name: Bytes, id: Bytes, priv: Bytes, beyond: Bytes)
    requires |id| == UUID_LENGTH && Load(name, Print(name, id, priv), beyond).Some? && Harmless(priv, beyond)
    ensures Load(name, Print(name, id, priv), beyond).value.priv == priv
  {
    if Free(name, NEWLINE) && Free(name, 0) {
      InfoRoundTrip(name, id, priv, beyond);
    } else {
      FirstLine(CString(Print(name, id, priv) + beyond));
    }
  }

  // ----- The client's own object -----

  /** The fields of the client initializer that me.info is about. */
  class ClientInitializer {
    var userName: Bytes
    var clientUUID: Bytes
    var privateKey: Bytes

    constructor (name: Bytes)
      ensures userName == name && clientUUID == Zeros(UUID_LENGTH) && privateKey == []
    {
      userName, clientUUID, privateKey := name, Zeros(UUID_LENGTH), [];
    }

    /** Joins the three values with newlines. */
    method ConnectionInfo() returns (buffer: Bytes)
      ensures buffer == Print(userName, clientUUID, privateKey)
    {
      var info := [userName, Hex(clientUUID), Base64(privateKey)];
      buffer := info[0];
      var i := 1;
      while i < |info|
        invariant 1 <= i <= 3
        invariant buffer == if i == 1 then userName
                            else if i == 2 then userName + [NEWLINE] + Hex(clientUUID)
                            else Print(userName, clientUUID, privateKey)
      {
        buffer := buffer + [NEWLINE] + info[i];
        i := i + 1;
      }
    }

    /** Reads the lines of a file, and of what lies beyond its buffer, and drops an empty last one. */
    static method ReadInformationFile(file: Bytes, beyond: Bytes) returns (lines: seq<Bytes>)
      ensures lines == InfoLines(file, beyond)
    {
      lines := [];
      if file == [] {
        return;
      }
      lines := Lines(CString(file + beyond));
      if lines[|lines| - 1] == [] {
        lines := lines[..|lines| - 1];
      }
    }

    /** Takes id and key over from the file, or leaves the object as it was. */
    method GetClientConnectionInfo(file: Bytes, beyond: Bytes) returns (ok: bool)
      requires clientUUID == Zeros(UUID_LENGTH)
      modifies this
      ensures ok <==> Load(userName, file, beyond).Some?
      ensures ok ==> old(userName) + [NEWLINE] <= CString(file + beyond)
      ensures forall n, id, priv ::
                file == Print(n, id, priv) && Free(n, NEWLINE) && Free(n, 0) && n != old(userName) ==> !ok
      ensures userName == old(userName)
      ensures ok ==> Identity(clientUUID, privateKey) == Load(userName, file, beyond).value
      ensures !ok ==> clientUUID == old(clientUUID) && privateKey == old(privateKey)
    {
      forall n, id, priv | file == Print(n, id, priv) && Free(n, NEWLINE) && Free(n, 0) && n != userName
        ensures Load(userName, file, beyond) == None
      {
        ForeignFile(n, userName, id, priv, beyond);
      }
      var info := ReadInformationFile(file, beyond);
      if |info| != 3 || userName != info[0] {
        return false;
      }
      var id := Unhex(info[1]);
      if id.None? || |id.value| > UUID_LENGTH {
        return false;
      }
      LoadedName(userName, file, beyond);
      clientUUID := id.value + clientUUID[|id.value|..];
      privateKey := Unbase64(info[2]);
      assert clientUUID == PadTo(id.value, UUID_LENGTH);
      return true;
    }
  }
}
