/** The cursor of the case list: base64url without padding (section 5 of RFC 4648) around a JSON
    object that names the last case and the scope of the listing. */
module CatalogueCursor {
  import opened Registry

  // ---------------------------------------------------------------- base64url

  type Byte = b: int | 0 <= b < 256

  /** The alphabet of section 5, by range. */
  function Digit(n: int): char
    requires 0 <= n < 64
  {
    if n < 26 then (n + 'A' as int) as char
    else if n < 52 then (n - 26 + 'a' as int) as char
    else if n < 62 then (n - 52 + '0' as int) as char
    else if n == 62 then '-' else '_'
  }

  /** The decoder also takes the two characters of the ordinary alphabet. */
  function ValueOf(c: char): (v: Option<int>)
    ensures v.Some? ==> 0 <= v.value < 64
  {
    if 'A' <= c <= 'Z' then Some(c as int - 'A' as int)
    else if 'a' <= c <= 'z' then Some(c as int - 'a' as int + 26)
    else if '0' <= c <= '9' then Some(c as int - '0' as int + 52)
    else if c == '-' || c == '+' then Some(62)
    else if c == '_' || c == '/' then Some(63)
    else None
  }

  /** The alphabet runs from `A` to `Z`, `a` to `z`, `0` to `9`, and ends with `-` and `_`. */
  lemma DigitIs(n: int)
    requires 0 <= n < 64
    ensures Digit(0) == 'A' && Digit(25) == 'Z' && Digit(26) == 'a' && Digit(51) == 'z'
    ensures Digit(52) == '0' && Digit(61) == '9' && Digit(62) == '-' && Digit(63) == '_'
    ensures n !in {25, 51, 61, 62, 63} ==> Digit(n + 1) as int == Digit(n) as int + 1
  {
  }

  lemma DigitHasValue(n: int)
    requires 0 <= n < 64
    ensures ValueOf(Digit(n)) == Some(n) && Digit(n) != '='
  {
  }

  /** How many bytes the first group takes. */
  function Width(bs: seq<Byte>): nat { if |bs| < 3 then |bs| else 3 }

  /** The four characters of the first group. */
  function Group(bs: seq<Byte>): (g: string)
    requires bs != []
    ensures |g| == 4
  {
    if |bs| == 1 then [Digit(bs[0] / 4), Digit(bs[0] % 4 * 16), '=', '=']
    else if |bs| == 2 then [Digit(bs[0] / 4), Digit(bs[0] % 4 * 16 + bs[1] / 16), Digit(bs[1] % 16 * 4), '=']
    else [Digit(bs[0] / 4), Digit(bs[0] % 4 * 16 + bs[1] / 16), Digit(bs[1] % 16 * 4 + bs[2] / 64), Digit(bs[2] % 64)]
  }

  /** `urlsafe_b64encode`, padding included. */
  function Encode(bs: seq<Byte>): string {
    if bs == [] then "" else Group(bs) + Encode(bs[Width(bs)..])
  }

  /** The decoder's loop: `quad` characters of a group were read, `left` holds the bits not yet used and
      `pads` counts the padding since. Characters of no alphabet are skipped; a group padded in full ends
      the text. */
  function Scan(s: string, quad: nat, left: nat, pads: nat): Option<seq<Byte>>
    requires quad <= 3 && left < (if quad == 0 then 1 else if quad == 1 then 64 else if quad == 2 then 16 else 4)
    decreases |s|
  {
    if s == "" then (if quad == 0 then Some([]) else None)
    else if s[0] == '=' then
      if quad < 2 then Scan(s[1..], quad, left, pads)
      else if quad + pads + 1 >= 4 then Some([])
      else Scan(s[1..], quad, left, pads + 1)
    else
      match ValueOf(s[0])
      case None => Scan(s[1..], quad, left, pads)
      case Some(v) =>
        if quad == 0 then Scan(s[1..], 1, v, 0)
        else if quad == 1 then Emit(left * 4 + v / 16, Scan(s[1..], 2, v % 16, 0))
        else if quad == 2 then Emit(left * 16 + v / 4, Scan(s[1..], 3, v % 4, 0))
        else Emit(left * 64 + v, Scan(s[1..], 0, 0, 0))
  }

  function Emit(b: Byte, rest: Option<seq<Byte>>): Option<seq<Byte>> {
    match rest case None => None case Some(bytes) => Some([b] + bytes)
  }

  /** `urlsafe_b64decode`; text beyond ASCII is refused. */
  function Decode(s: string): Option<seq<Byte>> {
    if exists i :: 0 <= i < |s| && s[i] as int >= 128 then None else Scan(s, 0, 0, 0)
  }

  /** `rstrip("=")` */
  function Strip(s: string): string {
    if s != "" && s[|s| - 1] == '=' then Strip(s[..|s| - 1]) else s
  }

  /** `cursor + "=" * (-len(cursor) % 4)` */
  function Pad(s: string): string { s + seq((4 - |s| % 4) % 4, _ => '=') }

  /** Scanning a digit. */
  lemma {:induction false} ScanDigit(n: int, rest: string, quad: nat, left: nat, pads: nat)
    requires 0 <= n < 64
    requires quad <= 3 && left < (if quad == 0 then 1 else if quad == 1 then 64 else if quad == 2 then 16 else 4)
    ensures Scan([Digit(n)] + rest, quad, left, pads) ==
      if quad == 0 then Scan(rest, 1, n, 0)
      else if quad == 1 then Emit(left * 4 + n / 16, Scan(rest, 2, n % 16, 0))
      else if quad == 2 then Emit(left * 16 + n / 4, Scan(rest, 3, n % 4, 0))
      else Emit(left * 64 + n, Scan(rest, 0, 0, 0))
  {
    DigitHasValue(n);
    assert ([Digit(n)] + rest)[1..] == rest;
  }

  lemma {:induction false} ScanOne(a: Byte)
    ensures Scan([Digit(a / 4)] + ([Digit(a % 4 * 16)] + "=="), 0, 0, 0) == Some([a])
  {
    ScanDigit(a / 4, [Digit(a % 4 * 16)] + "==", 0, 0, 0);
    ScanDigit(a % 4 * 16, "==", 1, a / 4, 0);
    assert "=="[1..] == "=" && Scan("=", 2, 0, 1) == Some([]);
    assert Scan("==", 2, 0, 0) == Some([]);
    assert a / 4 * 4 + a % 4 * 16 / 16 == a && a % 4 * 16 % 16 == 0;
    assert [a] + [] == [a];
  }

  lemma {:induction false} ScanTwo(a: Byte, b: Byte)
    ensures Scan([Digit(a / 4)] + ([Digit(a % 4 * 16 + b / 16)] + ([Digit(b % 16 * 4)] + "=")), 0, 0, 0) == Some([a, b])
  {
    var v, w := a % 4 * 16 + b / 16, b % 16 * 4;
    ScanDigit(a / 4, [Digit(v)] + ([Digit(w)] + "="), 0, 0, 0);
    ScanDigit(v, [Digit(w)] + "=", 1, a / 4, 0);
    ScanDigit(w, "=", 2, v % 16, 0);
    assert Scan("=", 3, 0, 0) == Some([]);
    assert a / 4 * 4 + v / 16 == a && v % 16 * 16 + w / 4 == b;
    assert [a] + [b] == [a, b] && [b] + [] == [b];
  }

  lemma Sextets(a: Byte, b: Byte, c: Byte, v: int, w: int, x: int)
    requires v == a % 4 * 16 + b / 16 && w == b % 16 * 4 + c / 64 && x == c % 64
    ensures 0 <= v < 64 && 0 <= w < 64 && 0 <= x < 64
    ensures a / 4 * 4 + v / 16 == a && v % 16 * 16 + w / 4 == b && w % 4 * 64 + x == c
  {
    assert v / 16 == a % 4 && v % 16 == b / 16 && w / 4 == b % 16 && w % 4 == c / 64;
  }

  lemma {:induction false} ScanThree(a: Byte, b: Byte, c: Byte, rest: string)
    requires Scan(rest, 0, 0, 0).Some?
    ensures Scan([Digit(a / 4)] + ([Digit(a % 4 * 16 + b / 16)]
                                   + ([Digit(b % 16 * 4 + c / 64)] + ([Digit(c % 64)] + rest))), 0, 0, 0)
      == Some([a, b, c] + Scan(rest, 0, 0, 0).value)
  {
    var u, v, w, x := a / 4, a % 4 * 16 + b / 16, b % 16 * 4 + c / 64, c % 64;
    Sextets(a, b, c, v, w, x);
    ScanDigit(u, [Digit(v)] + ([Digit(w)] + ([Digit(x)] + rest)), 0, 0, 0);
    ScanDigit(v, [Digit(w)] + ([Digit(x)] + rest), 1, u, 0);
    ScanDigit(w, [Digit(x)] + rest, 2, v % 16, 0);
    ScanDigit(x, rest, 3, w % 4, 0);
    var bytes := Scan(rest, 0, 0, 0).value;
    assert [a] + ([b] + ([c] + bytes)) == [a, b, c] + bytes;
  }

  lemma {:induction false} ScanShort(bs: seq<Byte>)
    requires 1 <= |bs| <= 2
    ensures Scan(Encode(bs), 0, 0, 0) == Some(bs)
  {
    assert bs[Width(bs)..] == [] && Encode(bs) == Group(bs);
    if |bs| == 1 {
      ScanOne(bs[0]);
      assert Encode(bs) == [Digit(bs[0] / 4)] + ([Digit(bs[0] % 4 * 16)] + "==");
      assert bs == [bs[0]];
    } else {
      ScanTwo(bs[0], bs[1]);
      assert Encode(bs) == [Digit(bs[0] / 4)]
        + ([Digit(bs[0] % 4 * 16 + bs[1] / 16)] + ([Digit(bs[1] % 16 * 4)] + "="));
      assert bs == [bs[0], bs[1]];
    }
  }

  lemma {:induction false} ScanEncoded(bs: seq<Byte>)
    ensures Scan(Encode(bs), 0, 0, 0) == Some(bs)
    decreases |bs|
  {
    if 1 <= |bs| <= 2 {
      ScanShort(bs);
    } else if |bs| > 2 {
      ScanEncoded(bs[3..]);
      FirstGroup(bs);
      ScanThree(bs[0], bs[1], bs[2], Encode(bs[3..]));
      assert bs == [bs[0], bs[1], bs[2]] + bs[3..];
    }
  }

  lemma {:induction false} OneByOne(a: char, b: char, c: char, d: char, rest: string)
    ensures [a, b, c, d] + rest == [a] + ([b] + ([c] + ([d] + rest)))
  {
  }

  lemma {:induction false} FirstGroup(bs: seq<Byte>)
    requires |bs| > 2
    ensures Encode(bs) == [Digit(bs[0] / 4)] + ([Digit(bs[0] % 4 * 16 + bs[1] / 16)]
      + ([Digit(bs[1] % 16 * 4 + bs[2] / 64)] + ([Digit(bs[2] % 64)] + Encode(bs[3..]))))
  {
    var g := Group(bs);
    assert Encode(bs) == g + Encode(bs[3..]) && g == [g[0], g[1], g[2], g[3]];
    OneByOne(g[0], g[1], g[2], g[3], Encode(bs[3..]));
  }

  lemma {:induction false} EncodedIsAscii(bs: seq<Byte>)
    ensures forall i :: 0 <= i < |Encode(bs)| ==> Encode(bs)[i] as int < 128
    decreases |bs|
  {
    if bs != [] {
      GroupIsAscii(bs);
      EncodedIsAscii(bs[Width(bs)..]);
    }
  }

  lemma GroupIsAscii(bs: seq<Byte>)
    requires bs != []
    ensures forall i :: 0 <= i < 4 ==> Group(bs)[i] as int < 128
  {
  }

  lemma {:induction false} DecodeEncoded(bs: seq<Byte>)
    ensures Decode(Encode(bs)) == Some(bs)
  {
    ScanEncoded(bs);
    EncodedIsAscii(bs);
  }

  /** What else the decoder takes: any text with a character beyond ASCII is refused; in the others `+` and `/` mean
      `-` and `_`, and characters of neither alphabet are passed over. */
  lemma DecodeIsLenient(s: string, c: char, rest: string, quad: nat, left: nat, pads: nat)
    requires quad <= 3 && left < (if quad == 0 then 1 else if quad == 1 then 64 else if quad == 2 then 16 else 4)
    ensures (exists i :: 0 <= i < |s| && s[i] as int >= 128) ==> Decode(s) == None
    ensures (forall i :: 0 <= i < |s| ==> s[i] as int < 128) ==> Decode(s) == Scan(s, 0, 0, 0)
    ensures Scan(['+'] + rest, quad, left, pads) == Scan(['-'] + rest, quad, left, pads)
    ensures Scan(['/'] + rest, quad, left, pads) == Scan(['_'] + rest, quad, left, pads)
    ensures !('A' <= c <= 'Z' || 'a' <= c <= 'z' || '0' <= c <= '9' || c in {'-', '_', '+', '/', '='}) ==>
      Scan([c] + rest, quad, left, pads) == Scan(rest, quad, left, pads)
  {
    assert ([c] + rest)[1..] == (['+'] + rest)[1..] == (['-'] + rest)[1..] == rest;
    assert (['/'] + rest)[1..] == (['_'] + rest)[1..] == rest;
  }

  lemma EncodedEmpty(bs: seq<Byte>)
    ensures Encode(bs) == "" <==> bs == []
    ensures Encode(bs) != "" ==> Encode(bs)[0] != '='
  {
    if bs != [] { DigitHasValue(bs[0] / 4); }
  }

  lemma {:induction false} StripKeepsHead(s: string)
    requires s != "" && s[0] != '='
    ensures Strip(s) != ""
  {
    if s[|s| - 1] == '=' { StripKeepsHead(s[..|s| - 1]); }
  }

  lemma {:induction false} StripTail(g: string, s: string)
    requires Strip(s) != ""
    ensures Strip(g + s) == g + Strip(s)
  {
    if s[|s| - 1] == '=' {
      assert (g + s)[..|g + s| - 1] == g + s[..|s| - 1];
      StripTail(g, s[..|s| - 1]);
    }
  }

  lemma PadTail(g: string, s: string)
    requires |g| == 4
    ensures Pad(g + s) == g + Pad(s)
  {
    assert |g + s| % 4 == |s| % 4;
  }

  lemma LastGroupPads(bs: seq<Byte>)
    requires 1 <= |bs| <= 3
    ensures Pad(Strip(Group(bs))) == Group(bs)
  {
    var g := Group(bs);
    if |bs| == 1 {
      DigitHasValue(bs[0] % 4 * 16);
      assert g[..3][..2] == g[..2];
      assert Strip(g[..3]) == g[..2];
      assert Strip(g) == g[..2];
      assert g == g[..2] + ['=', '='];
    } else if |bs| == 2 {
      DigitHasValue(bs[1] % 16 * 4);
      assert Strip(g) == g[..3];
      assert g == g[..3] + ['='];
    } else {
      DigitHasValue(bs[2] % 64);
    }
  }

  /** Padding can be taken off and put back. */
  lemma {:induction false} PaddingReturns(bs: seq<Byte>)
    ensures Pad(Strip(Encode(bs))) == Encode(bs)
  {
    if 1 <= |bs| <= 3 {
      assert bs[Width(bs)..] == [];
      assert Encode(bs) == Group(bs);
      LastGroupPads(bs);
    } else if bs != [] {
      var rest := Encode(bs[3..]);
      PaddingReturns(bs[3..]);
      EncodedEmpty(bs[3..]);
      StripKeepsHead(rest);
      StripTail(Group(bs), rest);
      PadTail(Group(bs), Strip(rest));
    }
  }

  lemma LastGroupLength(bs: seq<Byte>)
    requires 1 <= |bs| <= 3
    ensures |Strip(Group(bs))| == |bs| + 1
  {
    LastGroupPads(bs);
    var g := Group(bs);
    if |bs| == 1 {
      DigitHasValue(bs[0] % 4 * 16);
      assert g[..3][..2] == g[..2];
      assert Strip(g[..3]) == g[..2];
    } else if |bs| == 2 {
      DigitHasValue(bs[1] % 16 * 4);
    } else {
      DigitHasValue(bs[2] % 64);
    }
  }

  /** Without its padding, the text takes four characters for three bytes. */
  lemma {:induction false} StrippedLength(bs: seq<Byte>)
    ensures |Strip(Encode(bs))| == (4 * |bs| + 2) / 3
  {
    if 1 <= |bs| <= 3 {
      assert bs[Width(bs)..] == [];
      assert Encode(bs) == Group(bs);
      LastGroupLength(bs);
    } else if bs != [] {
      var rest := Encode(bs[3..]);
      StrippedLength(bs[3..]);
      EncodedEmpty(bs[3..]);
      StripKeepsHead(rest);
      StripTail(Group(bs), rest);
    }
  }

  // ---------------------------------------------------------------- JSON

  /** `encode`, for texts of ASCII characters. */
  function Ascii(s: string): seq<Byte> { seq(|s|, i requires 0 <= i < |s| => s[i] as int % 128) }

  function HexDigit(n: int): Byte
    requires 0 <= n < 16
  {
    if n < 10 then 48 + n else 87 + n
  }

  /** A backslash, `u` and four digits. */
  function Unit(n: int): (bytes: seq<Byte>)
    requires 0 <= n < 0x1_0000
    ensures |bytes| == 6
  {
    [92, 117, HexDigit(n / 4096), HexDigit(n / 256 % 16), HexDigit(n / 16 % 16), HexDigit(n % 16)]
  }

  /** `json.dumps` spells a character in ASCII (section 7 of RFC 8259): as it is, with a short escape, or
      by its UTF-16 units. */
  function Spelled(c: char): (bytes: seq<Byte>)
    ensures 1 <= |bytes| <= (if c as int < 0x1_0000 then 6 else 12)
  {
    var n := c as int;
    if n == 34 || n == 92 then [92, n]
    else if n == 8 then [92, 98]
    else if n == 9 then [92, 116]
    else if n == 10 then [92, 110]
    else if n == 12 then [92, 102]
    else if n == 13 then [92, 114]
    else if 32 <= n < 127 then [n]
    else if n < 0x1_0000 then Unit(n)
    else Unit(0xD800 + (n - 0x1_0000) / 1024) + Unit(0xDC00 + (n - 0x1_0000) % 1024)
  }

  /** The spelling of a text up to its closing quote. */
  function Quoted(s: string): seq<Byte> { if s == "" then [34] else Spelled(s[0]) + Quoted(s[1..]) }

  /** The payload of a cursor, without white space. */
  function Dumps(caseId: string, fingerprint: string): seq<Byte> {
    Ascii("{\"case_id\":\"") + (Quoted(caseId) + (Ascii(",\"scope\":\"") + (Quoted(fingerprint) + [125])))
  }

  lemma HexDigits(n: int)
    requires 0 <= n < 0x1_0000
    ensures n == n / 4096 * 4096 + n / 256 % 16 * 256 + n / 16 % 16 * 16 + n % 16
  {
    assert n / 256 == n / 4096 * 16 + n / 256 % 16;
    assert n / 16 == n / 256 * 16 + n / 16 % 16;
  }

  lemma SameDigit(m: int, n: int)
    requires 0 <= m < 16 && 0 <= n < 16 && HexDigit(m) == HexDigit(n)
    ensures m == n
  {
  }

  lemma UnitInjective(m: int, n: int)
    requires 0 <= m < 0x1_0000 && 0 <= n < 0x1_0000 && Unit(m) == Unit(n)
    ensures m == n
  {
    assert forall i :: 0 <= i < 6 ==> Unit(m)[i] == Unit(n)[i];
    SameDigit(m / 4096, n / 4096);
    SameDigit(m / 256 % 16, n / 256 % 16);
    SameDigit(m / 16 % 16, n / 16 % 16);
    SameDigit(m % 16, n % 16);
    HexDigits(m);
    HexDigits(n);
  }

  lemma UnitHead(m: int, n: int, x: seq<Byte>, y: seq<Byte>)
    requires 0 <= m < 0x1_0000 && 0 <= n < 0x1_0000 && Unit(m) + x == Unit(n) + y
    ensures m == n && x == y
  {
    assert Unit(m) == (Unit(m) + x)[..6] == (Unit(n) + y)[..6] == Unit(n);
    assert x == (Unit(m) + x)[6..] == (Unit(n) + y)[6..] == y;
    UnitInjective(m, n);
  }

  predicate Short(c: char) { |Spelled(c)| <= 2 }

  /** The first UTF-16 unit of a character that is spelled by units, and what follows it. */
  function FirstUnit(c: char): (unit: int)
    requires !Short(c)
    ensures 0 <= unit < 0x1_0000 && (0xD800 <= unit < 0xDC00 <==> c as int >= 0x1_0000)
  {
    if c as int < 0x1_0000 then c as int else 0xD800 + (c as int - 0x1_0000) / 1024
  }

  function OtherUnits(c: char): seq<Byte>
    requires !Short(c)
  {
    if c as int < 0x1_0000 then [] else Unit(0xDC00 + (c as int - 0x1_0000) % 1024)
  }

  lemma ByUnits(c: char, x: seq<Byte>)
    requires !Short(c)
    ensures Spelled(c) + x == Unit(FirstUnit(c)) + (OtherUnits(c) + x)
  {
    if c as int < 0x1_0000 { assert [] + x == x; }
  }

  lemma ShortHead(c: char, d: char, x: seq<Byte>, y: seq<Byte>)
    requires Short(c) && Spelled(c) + x == Spelled(d) + y
    ensures c == d
  {
    var a, b := Spelled(c), Spelled(d);
    assert a[0] == (a + x)[0] == (b + y)[0] == b[0];
    if |a| == 2 { assert a[1] == (a + x)[1] == (b + y)[1] == b[1]; }
  }

  lemma LongHead(c: char, d: char, x: seq<Byte>, y: seq<Byte>)
    requires !Short(c) && !Short(d) && Spelled(c) + x == Spelled(d) + y
    ensures c == d
  {
    ByUnits(c, x);
    ByUnits(d, y);
    UnitHead(FirstUnit(c), FirstUnit(d), OtherUnits(c) + x, OtherUnits(d) + y);
    if c as int >= 0x1_0000 {
      var m, n := c as int - 0x1_0000, d as int - 0x1_0000;
      UnitHead(0xDC00 + m % 1024, 0xDC00 + n % 1024, x, y);
      assert m == m / 1024 * 1024 + m % 1024 && n == n / 1024 * 1024 + n % 1024;
    }
  }

  /** No character's spelling begins another's, and none begins with the closing quote. */
  lemma SpelledHead(c: char, d: char, x: seq<Byte>, y: seq<Byte>)
    requires Spelled(c) + x == Spelled(d) + y
    ensures c == d && x == y
  {
    if Short(c) {
      ShortHead(c, d, x, y);
    } else if Short(d) {
      ShortHead(d, c, y, x);
    } else {
      LongHead(c, d, x, y);
    }
    var n := |Spelled(c)|;
    assert x == (Spelled(c) + x)[n..] == (Spelled(d) + y)[n..] == y;
  }

  lemma QuotedEnds(s: string)
    ensures Quoted(s) != [] && (Quoted(s)[0] == 34 <==> s == "")
  {
  }

  lemma {:induction false} QuotedUnfolds(s: string, rest: seq<Byte>)
    requires s != ""
    ensures Quoted(s) + rest == Spelled(s[0]) + (Quoted(s[1..]) + rest)
  {
  }

  /** The same first byte of both ends both texts, or neither. */
  lemma {:induction false} QuotedTogether(a: string, b: string, x: seq<Byte>, y: seq<Byte>)
    requires Quoted(a) + x == Quoted(b) + y
    ensures a == "" <==> b == ""
  {
    QuotedEnds(a);
    QuotedEnds(b);
    assert Quoted(a)[0] == (Quoted(a) + x)[0] == (Quoted(b) + y)[0] == Quoted(b)[0];
  }

  /** A quoted text can be read back, whatever follows it. */
  lemma {:induction false} QuotedHead(a: string, b: string, x: seq<Byte>, y: seq<Byte>)
    requires Quoted(a) + x == Quoted(b) + y
    ensures a == b && x == y
  {
    QuotedTogether(a, b, x, y);
    if a == "" {
      assert x == ([34] + x)[1..] == ([34] + y)[1..] == y;
    } else {
      QuotedUnfolds(a, x);
      QuotedUnfolds(b, y);
      SpelledHead(a[0], b[0], Quoted(a[1..]) + x, Quoted(b[1..]) + y);
      QuotedHead(a[1..], b[1..], x, y);
      assert a == [a[0]] + a[1..] && b == [b[0]] + b[1..];
    }
  }

  // ---------------------------------------------------------------- JSON texts read back

  /** The value of a hexadecimal digit. */
  function HexValue(b: Byte): int {
    if 48 <= b <= 57 then b - 48 else if 97 <= b <= 102 then b - 87 else if 65 <= b <= 70 then b - 55 else 0
  }

  /** The first UTF-16 unit of a JSON text and the bytes it takes (section 7 of RFC 8259). */
  function ReadUnit(bytes: seq<Byte>): (int, nat) {
    if bytes == [] then (0, 0)
    else if bytes[0] != 92 then (bytes[0], 1)
    else if |bytes| >= 6 && bytes[1] == 117 then
      (((HexValue(bytes[2]) * 16 + HexValue(bytes[3])) * 16 + HexValue(bytes[4])) * 16 + HexValue(bytes[5]), 6)
    else if |bytes| < 2 then (0, 0)
    else if bytes[1] == 98 then (8, 2)
    else if bytes[1] == 116 then (9, 2)
    else if bytes[1] == 110 then (10, 2)
    else if bytes[1] == 102 then (12, 2)
    else if bytes[1] == 114 then (13, 2)
    else (bytes[1], 2)
  }

  lemma UnitReads(n: int, rest: seq<Byte>)
    requires 0 <= n < 0x1_0000
    ensures ReadUnit(Unit(n) + rest) == (n, 6)
  {
    HexDigits(n);
    assert forall d :: 0 <= d < 16 ==> HexValue(HexDigit(d)) == d;
    assert forall i :: 0 <= i < 6 ==> (Unit(n) + rest)[i] == Unit(n)[i];
  }

  /** A reader of JSON finds each character again: as one unit, or as the two units that UTF-16 writes it with. */
  lemma SpelledReads(c: char, rest: seq<Byte>)
    ensures var (unit, width) := ReadUnit(Spelled(c) + rest);
      if c as int < 0x1_0000 then unit == c as int && width == |Spelled(c)|
      else
        && width == 6 && 0xD800 <= unit < 0xDC00
        && var (low, next) := ReadUnit((Spelled(c) + rest)[6..]);
        && next == 6 && 0xDC00 <= low < 0xE000
        && c as int == 0x1_0000 + (unit - 0xD800) * 1024 + (low - 0xDC00)
  {
    var n := c as int;
    if n >= 0x1_0000 {
      var high, low := 0xD800 + (n - 0x1_0000) / 1024, 0xDC00 + (n - 0x1_0000) % 1024;
      assert Spelled(c) + rest == Unit(high) + (Unit(low) + rest);
      assert (Unit(high) + (Unit(low) + rest))[6..] == Unit(low) + rest;
      UnitReads(high, Unit(low) + rest);
      UnitReads(low, rest);
      assert n - 0x1_0000 == (n - 0x1_0000) / 1024 * 1024 + (n - 0x1_0000) % 1024;
    } else if |Spelled(c)| == 6 {
      UnitReads(n, rest);
    }
  }

  /** Letters, digits and the other plain characters stand for themselves. */
  predicate Plain(s: string) {
    forall i :: 0 <= i < |s| ==> 32 <= s[i] as int < 127 && s[i] as int != 34 && s[i] as int != 92
  }

  lemma {:induction false} QuotedPlain(s: string)
    requires Plain(s)
    ensures Quoted(s) == Ascii(s) + [34]
  {
    if s == "" {
      assert Ascii(s) == [];
    } else {
      QuotedPlain(s[1..]);
      assert Spelled(s[0]) == [s[0] as int];
      assert Ascii(s) == [s[0] as int] + Ascii(s[1..]);
    }
  }

  lemma AsciiJoin(a: string, b: string)
    ensures Ascii(a + b) == Ascii(a) + Ascii(b)
  {
  }

  lemma Parts(a: string, b: string, c: string, d: string, e: string)
    ensures Ascii(a + b + c + d + e) == Ascii(a) + Ascii(b) + Ascii(c) + Ascii(d) + Ascii(e)
  {
    AsciiJoin(a, b);
    AsciiJoin(a + b, c);
    AsciiJoin(a + b + c, d);
    AsciiJoin(a + b + c + d, e);
  }

  lemma Regroup(a: seq<Byte>, b: seq<Byte>, c: seq<Byte>, d: seq<Byte>, q: seq<Byte>, e: seq<Byte>)
    ensures a + ((b + q) + (c + ((d + q) + e))) == a + b + (q + c) + d + (q + e)
  {
  }

  /** The payload for an ordinary case identifier, in full. */
  lemma PlainDumps(caseId: string, fingerprint: string)
    requires Plain(caseId) && Plain(fingerprint)
    ensures Dumps(caseId, fingerprint)
      == Ascii("{\"case_id\":\"" + caseId + "\",\"scope\":\"" + fingerprint + "\"}")
  {
    QuotedPlain(caseId);
    QuotedPlain(fingerprint);
    Parts("{\"case_id\":\"", caseId, "\",\"scope\":\"", fingerprint, "\"}");
    Frame();
    Regroup(Ascii("{\"case_id\":\""), Ascii(caseId), Ascii(",\"scope\":\""), Ascii(fingerprint), [34], [125]);
  }

  lemma Frame()
    ensures Ascii("\",\"scope\":\"") == [34] + Ascii(",\"scope\":\"") && Ascii("\"}") == [34] + [125]
  {
    AsciiJoin("\"", ",\"scope\":\"");
    assert "\"" + ",\"scope\":\"" == "\",\"scope\":\"";
    assert Ascii("\"") == [34];
  }

  lemma SameTail(a: seq<Byte>, x: seq<Byte>, y: seq<Byte>)
    requires a + x == a + y
    ensures x == y
  {
    assert x == (a + x)[|a|..] == (a + y)[|a|..] == y;
  }

  /** The payload tells the case and the fingerprint. */
  lemma DumpsInjective(c: string, s: string, d: string, u: string)
    requires Dumps(c, s) == Dumps(d, u)
    ensures c == d && s == u
  {
    var open, middle := Ascii("{\"case_id\":\""), Ascii(",\"scope\":\"");
    var x, y := Quoted(s) + [125], Quoted(u) + [125];
    SameTail(open, Quoted(c) + (middle + x), Quoted(d) + (middle + y));
    QuotedHead(c, d, middle + x, middle + y);
    SameTail(middle, x, y);
    QuotedHead(s, u, [125], [125]);
  }

  /** A text of the basic plane takes one to six bytes a character. */
  lemma {:induction false} QuotedLength(s: string)
    ensures |s| + 1 <= |Quoted(s)|
    ensures (forall i :: 0 <= i < |s| ==> s[i] as int < 0x1_0000) ==> |Quoted(s)| <= 6 * |s| + 1
  {
    if s != "" { QuotedLength(s[1..]); }
  }

  /** Sixteen hexadecimal digits. */
  predicate Fingerprint(s: string) {
    |s| == 16 && forall i :: 0 <= i < |s| ==> '0' <= s[i] <= '9' || 'a' <= s[i] <= 'f'
  }

  lemma {:induction false} PlainLength(s: string)
    requires forall i :: 0 <= i < |s| ==> '0' <= s[i] <= '9' || 'a' <= s[i] <= 'f'
    ensures |Quoted(s)| == |s| + 1
  {
    if s != "" { PlainLength(s[1..]); }
  }

  lemma DumpsLength(caseId: string, fingerprint: string)
    requires Fingerprint(fingerprint)
    ensures |Dumps(caseId, fingerprint)| == 40 + |Quoted(caseId)|
  {
    PlainLength(fingerprint);
    assert |"{\"case_id\":\""| == 12 && |",\"scope\":\""| == 10;
  }

  // ---------------------------------------------------------------- cursors

  /** A parsed payload: an object with its two members when they are there, or any other JSON value. */
  datatype Json = Object(caseId: Option<Text>, scope: Option<Text>) | NotAnObject

  /** `Surrogates` is a text with an unpaired surrogate, which JSON can spell but UTF-8 cannot hold. */
  datatype Text = String(s: string) | Surrogates | OtherValue

  /** The JSON parser, the scope's fingerprint, and the texts the database driver binds. */
  datatype Lib = Lib(loads: seq<Byte> -> Option<Json>, fingerprint: Scope -> string, binds: string -> bool)

  /** What the column of case identifiers holds: at most 40 characters; those of the supplementary
      planes are not considered. */
  predicate CaseName(s: string) { |s| <= 40 && forall i :: 0 <= i < |s| ==> 0 < s[i] as int < 0x1_0000 }

  /** The parser reads every payload back that a cursor is made of, and the driver takes every identifier
      that fits its column. */
  ghost predicate Lawful(lib: Lib) {
    && (forall c, s :: lib.loads(Dumps(c, s)) == Some(Object(Some(String(c)), Some(String(s)))))
    && (forall scope :: Fingerprint(lib.fingerprint(scope)))
    && (forall c :: CaseName(c) ==> lib.binds(c))
  }

  ghost function Reading(bytes: seq<Byte>): Option<Json> {
    if exists c, s :: Dumps(c, s) == bytes then
      var c, s :| Dumps(c, s) == bytes;
      Some(Object(Some(String(c)), Some(String(s))))
    else None
  }

  /** No two payloads are spelled alike, so such a parser can exist. */
  lemma LawfulIsMet()
    ensures exists lib :: Lawful(lib)
  {
    var lib := Lib(bytes => Reading(bytes), _ => "0123456789abcdef", _ => true);
    forall c, s ensures lib.loads(Dumps(c, s)) == Some(Object(Some(String(c)), Some(String(s)))) {
      var d, u :| Dumps(d, u) == Dumps(c, s) && Reading(Dumps(c, s)) == Some(Object(Some(String(d)), Some(String(u))));
      DumpsInjective(c, s, d, u);
    }
    assert Lawful(lib);
  }

  /** An absent filter and an empty one are the same. */
  datatype Scope = Scope(tenant: string, query: string, packageId: string, status: string, view: string)

  function OrEmpty(o: Option<string>): string { if o.None? then "" else o.value }

  function ScopeOf(tenant: string, query: Option<string>, packageId: Option<string>, status: Option<string>,
                   view: string): Scope {
    Scope(tenant, OrEmpty(query), OrEmpty(packageId), OrEmpty(status), view)
  }

  /** `NotObject` and `NotBound` are exceptions that nothing handles: the first when the payload is valid
      JSON but not an object, the second when the query cannot carry the case identifier found in it. */
  datatype Error = SchemaRejected | InvalidCursor | ScopeMismatch | NotObject | NotBound

  function EncodeCursor(caseId: string, scope: Scope, lib: Lib): string {
    Strip(Encode(Dumps(caseId, lib.fingerprint(scope))))
  }

  /** What a parsed payload makes of a cursor. */
  function Outcome(parsed: Option<Json>, scope: Scope, lib: Lib): Result<Text, Error> {
    match parsed
    case None => Err(InvalidCursor)
    case Some(NotAnObject) => Err(NotObject)
    case Some(Object(caseId, found)) =>
      if found == Some(String(lib.fingerprint(scope))) && caseId.Some? && !caseId.value.OtherValue?
      then Ok(caseId.value)
      else Err(ScopeMismatch)
  }

  /** The JSON value in a cursor, if there is one. */
  function Payload(cursor: string, lib: Lib): Option<Json> {
    match Decode(Pad(cursor)) case None => None case Some(bytes) => lib.loads(bytes)
  }

  function DecodeCursor(cursor: string, scope: Scope, lib: Lib): Result<Text, Error> {
    Outcome(Payload(cursor, lib), scope, lib)
  }

  /** The lengths the route declares. */
  predicate Fits(cursor: string) { 8 <= |cursor| <= 512 }

  function Bound(found: Result<Text, Error>, lib: Lib): Result<string, Error> {
    match found
    case Err(e) => Err(e)
    case Ok(text) => if text.String? && lib.binds(text.s) then Ok(text.s) else Err(NotBound)
  }

  /** The case a request with this cursor continues after. */
  function CursorCase(cursor: string, scope: Scope, lib: Lib): Result<string, Error> {
    if !Fits(cursor) then Err(SchemaRejected) else Bound(DecodeCursor(cursor, scope, lib), lib)
  }

  /** The payloads a request can carry are those of 6 to 384 bytes, all of them; and such a payload alone
      decides what happens. */
  lemma PayloadDecides(bytes: seq<Byte>, scope: Scope, lib: Lib)
    ensures var cursor := Strip(Encode(bytes));
      && DecodeCursor(cursor, scope, lib) == Outcome(lib.loads(bytes), scope, lib)
      && CursorCase(cursor, scope, lib)
         == if 6 <= |bytes| <= 384 then Bound(Outcome(lib.loads(bytes), scope, lib), lib) else Err(SchemaRejected)
  {
    PaddingReturns(bytes);
    DecodeEncoded(bytes);
    StrippedLength(bytes);
  }

  /** A case identifier the query cannot carry. */
  predicate Unbindable(caseId: Option<Text>, lib: Lib) {
    caseId.Some? && (caseId.value.Surrogates? || (caseId.value.String? && !lib.binds(caseId.value.s)))
  }

  /** For any text sent as a cursor: it raises an unhandled error exactly when its length fits and its
      payload is JSON other than an object, or an object of this very scope whose case identifier is a text
      that cannot be bound. It is malformed exactly when it does not decode or parse, and foreign exactly when
      the scope is absent or another, or the case identifier is absent or not a text. */
  lemma BrokenIff(cursor: string, scope: Scope, lib: Lib)
    ensures var result, payload := CursorCase(cursor, scope, lib), Payload(cursor, lib);
      var own := payload.Some? && payload.value.Object? && payload.value.scope == Some(String(lib.fingerprint(scope)));
      && (result == Err(SchemaRejected) <==> !(8 <= |cursor| <= 512))
      && (result == Err(NotObject) <==> Fits(cursor) && payload == Some(NotAnObject))
      && (result == Err(NotBound) <==> Fits(cursor) && own && Unbindable(payload.value.caseId, lib))
      && (result == Err(InvalidCursor) <==> Fits(cursor) && payload.None?)
      && (result == Err(ScopeMismatch) <==>
            Fits(cursor) && payload.Some? && payload.value.Object?
            && (payload.value.scope != Some(String(lib.fingerprint(scope)))
                || payload.value.caseId == None || payload.value.caseId == Some(OtherValue)))
  {
  }

  /** The bytes of `[0,0,0]`. */
  const LIST: seq<Byte> := [91, 48, 44, 48, 44, 48, 93]

  /** The cursor `WzAsMCwwXQ` is a JSON list: it raises the unhandled error in every listing. */
  lemma ListCursorBreaks(scope: Scope, lib: Lib)
    requires lib.loads(LIST) == Some(NotAnObject)
    ensures CursorCase("WzAsMCwwXQ", scope, lib) == Err(NotObject)
  {
    ListEncodes();
    var text := "WzAsMCwwXQ==";
    assert text[..11] == "WzAsMCwwXQ=" && text[..11][..10] == "WzAsMCwwXQ";
    assert Strip(text[..11]) == "WzAsMCwwXQ";
    PayloadDecides(LIST, scope, lib);
  }

  lemma ListEncodes()
    ensures Encode(LIST) == "WzAsMCwwXQ=="
  {
    assert LIST[3..][3..] == LIST[6..] && LIST[6..][1..] == [];
    assert Encode(LIST[6..]) == "XQ==";
    assert Encode(LIST[3..]) == "MCww" + "XQ==";
  }

  /** A payload of the right scope whose case identifier is one unpaired surrogate. */
  function SurrogatePayload(scope: Scope, lib: Lib): seq<Byte> {
    Ascii("{\"case_id\":\"\\ud800\",\"scope\":\"" + lib.fingerprint(scope) + "\"}")
  }

  /** The decoder accepts that payload, and the query raises the other unhandled error. */
  lemma SurrogateCursorBreaks(scope: Scope, lib: Lib)
    requires Fingerprint(lib.fingerprint(scope))
    requires lib.loads(SurrogatePayload(scope, lib))
             == Some(Object(Some(Surrogates), Some(String(lib.fingerprint(scope)))))
    ensures var cursor := Strip(Encode(SurrogatePayload(scope, lib)));
      DecodeCursor(cursor, scope, lib) == Ok(Surrogates) && CursorCase(cursor, scope, lib) == Err(NotBound)
  {
    assert |SurrogatePayload(scope, lib)| == 47;
    PayloadDecides(SurrogatePayload(scope, lib), scope, lib);
  }

  /** A cursor comes back as the case it was made from exactly in the listings whose tenant and filters
      have the fingerprint it was made for, and every other refuses it. The route admits it exactly when
      JSON spells the case identifier in at most 343 bytes, as it does for all that fit their column. */
  lemma CursorRoundTrip(caseId: string, scope: Scope, other: Scope, lib: Lib)
    requires Lawful(lib)
    ensures var cursor := EncodeCursor(caseId, scope, lib);
      var same := lib.fingerprint(other) == lib.fingerprint(scope);
      && DecodeCursor(cursor, other, lib) == (if same then Ok(String(caseId)) else Err(ScopeMismatch))
      && (Fits(cursor) <==> |Quoted(caseId)| <= 344) && (CaseName(caseId) ==> Fits(cursor) && lib.binds(caseId))
      && CursorCase(cursor, other, lib)
         == if !Fits(cursor) then Err(SchemaRejected)
            else if !same then Err(ScopeMismatch)
            else if lib.binds(caseId) then Ok(caseId) else Err(NotBound)
  {
    var bytes := Dumps(caseId, lib.fingerprint(scope));
    PayloadDecides(bytes, other, lib);
    StrippedLength(bytes);
    DumpsLength(caseId, lib.fingerprint(scope));
    QuotedLength(caseId);
    assert lib.loads(bytes) == Some(Object(Some(String(caseId)), Some(String(lib.fingerprint(scope)))));
  }
}
