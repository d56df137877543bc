/**
 Base64url without padding (sections 5 and 3.2 of RFC 4648), as the verifier decodes it: padding is
 put back by arithmetic on the length, then the text goes through the standard decoder, which skips
 characters outside the alphabet and stops at a complete pad.
 */
module Base64Url {
  import opened Wrappers

  type byte = x: int | 0 <= x < 256

  /** The n-th character of the URL-safe alphabet. */
  function SextetChar(v: int): char
    requires 0 <= v < 64
  {
    if v < 26 then 'A' + v as char
    else if v < 52 then 'a' + (v - 26) as char
    else if v < 62 then '0' + (v - 52) as char
    else if v == 62 then '-'
    else '_'
  }

  /** The value of a character; the URL-safe decoder maps '-' to '+' and '_' to '/', and so takes all four. */
  function Sextet(c: char): (v: Option<int>)
    ensures v.Some? ==> 0 <= v.value < 64
  {
    if 'A' <= c <= 'Z' then Some(c as int - 'A' as int)
    else if 'a' <= c <= 'z' then Some(c as int - 'a' as int + 26)
    else if '0' <= c <= '9' then Some(c as int - '0' as int + 52)
    else if c == '-' || c == '+' then Some(62)
    else if c == '_' || c == '/' then Some(63)
    else None
  }

  // -------------------------------------------------------------- decoding

  function Emit(b: byte, rest: Option<seq<byte>>): Option<seq<byte>> {
    match rest
    case None => None
    case Some(bytes) => Some([b] + bytes)
  }

  /** The decoder's inner loop: position in the quad, bits carried over, pads seen. */
  function Scan(text: string, quad: nat, left: nat, pads: nat): Option<seq<byte>>
    requires (quad == 0 && left == 0) || (quad == 1 && left < 64) || (quad == 2 && left < 16) || (quad == 3 && left < 4)
    decreases |text|
  {
    if text == [] then
      if quad == 0 then Some([]) else None
    else
      var rest := text[1..];
      if text[0] == '=' then
        if quad >= 2 then
          if quad + pads + 1 >= 4 then Some([]) else Scan(rest, quad, left, pads + 1)
        else Scan(rest, quad, left, pads)
      else
        match Sextet(text[0])
        case None => Scan(rest, quad, left, pads)
        case Some(v) =>
          if quad == 0 then Scan(rest, 1, v, 0)
          else if quad == 1 then Emit(left * 4 + v / 16, Scan(rest, 2, v % 16, 0))
          else if quad == 2 then Emit(left * 16 + v / 4, Scan(rest, 3, v % 4, 0))
          else Emit(left * 64 + v, Scan(rest, 0, 0, 0))
  }

  predicate IsAscii(text: string) {
    forall c :: c in text ==> c as int < 128
  }

  function Pads(n: nat): string {
    seq(n, _ => '=')
  }

  /** The padding put back: none when the length is a multiple of four. */
  function Padding(data: string): string {
    var padding := 4 - |data| % 4;
    if padding != 4 then Pads(padding) else ""
  }

  /** The decoder of the verifier; None where it raises. */
  function Decode(data: string): Option<seq<byte>> {
    if !IsAscii(data) then None else Scan(data + Padding(data), 0, 0, 0)
  }

  // -------------------------------------------------------------- encoding

  /** Base64url without padding, as the issuer mints it. */
  function Encode(bytes: seq<byte>): string {
    if |bytes| == 0 then ""
    else if |bytes| == 1 then
      [SextetChar(bytes[0] / 4), SextetChar(bytes[0] % 4 * 16)]
    else if |bytes| == 2 then
      [SextetChar(bytes[0] / 4), SextetChar(bytes[0] % 4 * 16 + bytes[1] / 16), SextetChar(bytes[1] % 16 * 4)]
    else
      [SextetChar(bytes[0] / 4),
       SextetChar(bytes[0] % 4 * 16 + bytes[1] / 16),
       SextetChar(bytes[1] % 16 * 4 + bytes[2] / 64),
       SextetChar(bytes[2] % 64)] + Encode(bytes[3..])
  }

  // ------------------------------------------------------------ round trip

  lemma SextetOfChar(v: int)
    requires 0 <= v < 64
    ensures Sextet(SextetChar(v)) == Some(v)
    ensures SextetChar(v) != '=' && SextetChar(v) != '.' && SextetChar(v) as int < 128
  {
  }

  /** Decoding one more character of the alphabet. */
  lemma ScanChar(v: int, rest: string, quad: nat, left: nat)
    requires 0 <= v < 64
    requires (quad == 0 && left == 0) || (quad == 1 && left < 64) || (quad == 2 && left < 16) || (quad == 3 && left < 4)
    ensures Scan([SextetChar(v)] + rest, quad, left, 0)
            == if quad == 0 then Scan(rest, 1, v, 0)
               else if quad == 1 then Emit(left * 4 + v / 16, Scan(rest, 2, v % 16, 0))
               else if quad == 2 then Emit(left * 16 + v / 4, Scan(rest, 3, v % 4, 0))
               else Emit(left * 64 + v, Scan(rest, 0, 0, 0))
  {
    SextetOfChar(v);
    var text := [SextetChar(v)] + rest;
    assert text[1..] == rest;
  }

  /** The bits of three bytes, regrouped in sixes and put together again. */
  lemma Bits(a: byte, b: byte, c: byte)
    ensures var s1, s2 := a % 4 * 16 + b / 16, b % 16 * 4 + c / 64;
            && 0 <= s1 < 64 && 0 <= s2 < 64
            && a / 4 * 4 + s1 / 16 == a && s1 % 16 == b / 16
            && b / 16 * 16 + s2 / 4 == b && s2 % 4 == c / 64
            && c / 64 * 64 + c % 64 == c
  {
  }

  /** The two characters and the state that come after one byte, whatever the next byte is. */
  lemma ScanFirst(a: byte, b: byte, rest: string)
    ensures Scan([SextetChar(a / 4)] + ([SextetChar(a % 4 * 16 + b / 16)] + rest), 0, 0, 0)
            == Emit(a, Scan(rest, 2, b / 16, 0))
  {
    Bits(a, b, 0);
    ScanChar(a / 4, [SextetChar(a % 4 * 16 + b / 16)] + rest, 0, 0);
    ScanChar(a % 4 * 16 + b / 16, rest, 1, a / 4);
  }

  lemma ScanSecond(b: byte, c: byte, rest: string)
    ensures Scan([SextetChar(b % 16 * 4 + c / 64)] + rest, 2, b / 16, 0) == Emit(b, Scan(rest, 3, c / 64, 0))
  {
    Bits(0, b, c);
    ScanChar(b % 16 * 4 + c / 64, rest, 2, b / 16);
  }

  lemma ScanThird(c: byte, rest: string)
    ensures Scan([SextetChar(c % 64)] + rest, 3, c / 64, 0) == Emit(c, Scan(rest, 0, 0, 0))
  {
    Bits(0, 0, c);
    ScanChar(c % 64, rest, 3, c / 64);
  }

  /** Three bytes, four characters. */
  lemma ScanGroup(a: byte, b: byte, c: byte, rest: string)
    ensures Scan([SextetChar(a / 4)] + ([SextetChar(a % 4 * 16 + b / 16)]
                 + ([SextetChar(b % 16 * 4 + c / 64)] + ([SextetChar(c % 64)] + rest))), 0, 0, 0)
            == Emit(a, Emit(b, Emit(c, Scan(rest, 0, 0, 0))))
  {
    var t3 := [SextetChar(c % 64)] + rest;
    var t2 := [SextetChar(b % 16 * 4 + c / 64)] + t3;
    ScanFirst(a, b, t2);
    ScanSecond(b, c, t3);
    ScanThird(c, rest);
  }

  /** A complete pad ends the text. */
  lemma ScanPads()
    ensures Scan("==", 2, 0, 0) == Some([]) && Scan("=", 3, 0, 0) == Some([])
  {
    assert "=="[1..] == "=";
    assert Scan("=", 2, 0, 1) == Some([]);
  }

  /** One byte left over, two characters and two pads. */
  lemma ScanOne(a: byte)
    ensures Scan([SextetChar(a / 4)] + ([SextetChar(a % 4 * 16)] + "=="), 0, 0, 0) == Some([a])
  {
    assert 0 / 16 == 0;
    ScanFirst(a, 0, "==");
    ScanPads();
    assert [a] + [] == [a];
  }

  /** Two bytes left over, three characters and one pad. */
  lemma ScanTwo(a: byte, b: byte)
    ensures Scan([SextetChar(a / 4)] + ([SextetChar(a % 4 * 16 + b / 16)] + ([SextetChar(b % 16 * 4)] + "=")), 0, 0, 0)
            == Some([a, b])
  {
    ScanFirst(a, b, [SextetChar(b % 16 * 4)] + "=");
    assert 0 / 64 == 0;
    ScanSecond(b, 0, "=");
    ScanPads();
    assert [b] + [] == [b] && [a] + [b] == [a, b];
  }

  function PadsFor(n: nat): string {
    if n % 3 == 0 then "" else if n % 3 == 1 then "==" else "="
  }

  /** Encoding a longer string begins with one group. */
  lemma EncodeGroup(bytes: seq<byte>, pads: string)
    requires |bytes| >= 3
    ensures var a, b, c := bytes[0], bytes[1], bytes[2];
            Encode(bytes) + pads
            == [SextetChar(a / 4)] + ([SextetChar(a % 4 * 16 + b / 16)]
               + ([SextetChar(b % 16 * 4 + c / 64)] + ([SextetChar(c % 64)] + (Encode(bytes[3..]) + pads))))
  {
    var a, b, c := bytes[0], bytes[1], bytes[2];
    Regroup(SextetChar(a / 4), SextetChar(a % 4 * 16 + b / 16), SextetChar(b % 16 * 4 + c / 64), SextetChar(c % 64),
            Encode(bytes[3..]), pads);
  }

  lemma Regroup(c0: char, c1: char, c2: char, c3: char, rest: string, pads: string)
    ensures ([c0, c1, c2, c3] + rest) + pads == [c0] + ([c1] + ([c2] + ([c3] + (rest + pads))))
  {
  }

  lemma ScanEncodedOne(bytes: seq<byte>)
    requires |bytes| == 1
    ensures Scan(Encode(bytes) + "==", 0, 0, 0) == Some(bytes)
  {
    var a := bytes[0];
    ScanOne(a);
    assert bytes == [a];
    assert Encode(bytes) + "==" == [SextetChar(a / 4)] + ([SextetChar(a % 4 * 16)] + "==");
  }

  lemma ScanEncodedTwo(bytes: seq<byte>)
    requires |bytes| == 2
    ensures Scan(Encode(bytes) + "=", 0, 0, 0) == Some(bytes)
  {
    var a, b := bytes[0], bytes[1];
    ScanTwo(a, b);
    assert bytes == [a, b];
    assert Encode(bytes) + "=" == [SextetChar(a / 4)] + ([SextetChar(a % 4 * 16 + b / 16)]
                                  + ([SextetChar(b % 16 * 4)] + "="));
  }

  lemma ScanEncodedGroup(bytes: seq<byte>, pads: string)
    requires |bytes| >= 3 && Scan(Encode(bytes[3..]) + pads, 0, 0, 0) == Some(bytes[3..])
    ensures Scan(Encode(bytes) + pads, 0, 0, 0) == Some(bytes)
  {
    EncodeGroup(bytes, pads);
    ScanGroup(bytes[0], bytes[1], bytes[2], Encode(bytes[3..]) + pads);
    assert bytes == [bytes[0]] + ([bytes[1]] + ([bytes[2]] + bytes[3..]));
  }

  lemma {:induction false} ScanEncoded(bytes: seq<byte>)
    ensures Scan(Encode(bytes) + PadsFor(|bytes|), 0, 0, 0) == Some(bytes)
    decreases |bytes|
  {
    if |bytes| == 0 {
      assert Encode(bytes) + PadsFor(0) == "";
    } else if |bytes| == 1 {
      ScanEncodedOne(bytes);
    } else if |bytes| == 2 {
      ScanEncodedTwo(bytes);
    } else {
      assert PadsFor(|bytes|) == PadsFor(|bytes| - 3);
      ScanEncoded(bytes[3..]);
      ScanEncodedGroup(bytes, PadsFor(|bytes|));
    }
  }

  /** What the issuer writes: URL-safe ASCII without a dot, four characters for every three bytes. */
  lemma {:induction false} EncodeShape(bytes: seq<byte>)
    ensures |Encode(bytes)| == (|bytes| * 4 + 2) / 3
    ensures forall c :: c in Encode(bytes) ==> c != '.' && c != '=' && c as int < 128 && Sextet(c).Some?
    decreases |bytes|
  {
    if |bytes| > 0 {
      SextetOfChar(bytes[0] / 4);
      if |bytes| == 1 {
        SextetOfChar(bytes[0] % 4 * 16);
      } else {
        SextetOfChar(bytes[0] % 4 * 16 + bytes[1] / 16);
        if |bytes| == 2 {
          SextetOfChar(bytes[1] % 16 * 4);
        } else {
          SextetOfChar(bytes[1] % 16 * 4 + bytes[2] / 64);
          SextetOfChar(bytes[2] % 64);
          EncodeShape(bytes[3..]);
        }
      }
    }
  }

  /** Decoding inverts encoding, for every byte string: the padding arithmetic is exact. */
  lemma DecodeInvertsEncode(bytes: seq<byte>)
    ensures Decode(Encode(bytes)) == Some(bytes)
  {
    EncodeShape(bytes);
    ScanEncoded(bytes);
    PaddingExact(Encode(bytes), |bytes|);
  }

  lemma PaddingExact(text: string, n: nat)
    requires |text| == (n * 4 + 2) / 3
    ensures Padding(text) == PadsFor(n)
  {
    var k := n / 3;
    if n % 3 == 0 {
      assert n == 3 * k && |text| == 4 * k;
    } else if n % 3 == 1 {
      assert n == 3 * k + 1 && |text| == 4 * k + 2;
    } else {
      assert n == 3 * k + 2 && |text| == 4 * k + 3;
    }
  }

  // ----------------------------------------- which clean texts decode at all

  predicate Clean(text: string) {
    forall c :: c in text ==> Sextet(c).Some?
  }

  lemma ScanOnlyPads(pads: nat, quad: nat, left: nat)
    requires (quad == 0 && left == 0) || (quad == 1 && left < 64) || (quad == 2 && left < 16) || (quad == 3 && left < 4)
    requires pads == (4 - quad) % 4
    ensures Scan(Pads(pads), quad, left, 0).Some? <==> quad != 1
  {
    var text := Pads(pads);
    if quad == 1 {
      assert text[1..] == Pads(2) && Pads(2)[1..] == Pads(1) && Pads(1)[1..] == [];
    } else if quad == 2 {
      assert text[1..] == Pads(1);
    }
  }

  lemma {:induction false} ScanDefined(text: string, pads: nat, quad: nat, left: nat)
    requires Clean(text)
    requires (quad == 0 && left == 0) || (quad == 1 && left < 64) || (quad == 2 && left < 16) || (quad == 3 && left < 4)
    requires pads == (4 - (quad + |text|) % 4) % 4
    ensures Scan(text + Pads(pads), quad, left, 0).Some? <==> (quad + |text|) % 4 != 1
    decreases |text|
  {
    var all := text + Pads(pads);
    if text == [] {
      assert all == Pads(pads);
      ScanOnlyPads(pads, quad, left);
    } else {
      var rest := text[1..];
      assert all[1..] == rest + Pads(pads);
      assert text[0] in text && Clean(rest);
      var v := Sextet(text[0]).value;
      if quad == 0 {
        ScanDefined(rest, pads, 1, v);
      } else if quad == 1 {
        ScanDefined(rest, pads, 2, v % 16);
      } else if quad == 2 {
        ScanDefined(rest, pads, 3, v % 4);
      } else {
        ScanDefined(rest, pads, 0, 0);
      }
    }
  }

  /** A text over the alphabet decodes unless its length is one more than a multiple of four. */
  lemma DecodeDefined(data: string)
    requires Clean(data)
    ensures Decode(data).Some? <==> |data| % 4 != 1
  {
    forall c | c in data ensures c as int < 128 {
      assert Sextet(c).Some?;
    }
    ScanDefined(data, |Padding(data)|, 0, 0);
    assert Padding(data) == Pads(|Padding(data)|);
  }

  // ---------------------------------------------------- which characters are read

  /** The alphabet of section 5 of RFC 4648: capitals, small letters and digits in their order, '-' and '_'. */
  lemma AlphabetInOrder(v: int)
    requires 0 <= v < 63
    ensures SextetChar(0) == 'A' && SextetChar(25) == 'Z' && SextetChar(26) == 'a' && SextetChar(51) == 'z'
    ensures SextetChar(52) == '0' && SextetChar(61) == '9' && SextetChar(62) == '-' && SextetChar(63) == '_'
    ensures v !in {25, 51, 61, 62} ==> SextetChar(v + 1) as int == SextetChar(v) as int + 1
  {
  }

  /** Test vectors of section 10 of RFC 4648, and the two characters in which the URL-safe alphabet differs. */
  lemma KnownAnswers()
    ensures Encode([102]) == "Zg" && Encode([102, 111]) == "Zm8" && Encode([102, 111, 111]) == "Zm9v"
    ensures Encode([251, 255]) == "-_8"
  {
    assert [102, 111, 111][3..] == [];
  }

  /** The two characters stand for the same six bits: '-' and '+', '_' and '/'. */
  predicate Alike(a: char, b: char) {
    a == b || (a == '-' && b == '+') || (a == '_' && b == '/')
  }

  lemma {:induction false} ScanAlike(a: string, b: string, quad: nat, left: nat, pads: nat)
    requires |a| == |b| && forall i :: 0 <= i < |a| ==> Alike(a[i], b[i])
    requires (quad == 0 && left == 0) || (quad == 1 && left < 64) || (quad == 2 && left < 16) || (quad == 3 && left < 4)
    ensures Scan(a, quad, left, pads) == Scan(b, quad, left, pads)
    decreases |a|
  {
    if a != [] {
      var x, y := a[1..], b[1..];
      if a[0] == '=' || Sextet(a[0]).None? {
        ScanAlike(x, y, quad, left, pads);
        ScanAlike(x, y, quad, left, pads + 1);
      } else {
        var v := Sextet(a[0]).value;
        if quad == 0 {
          ScanAlike(x, y, 1, v, 0);
        } else if quad == 1 {
          ScanAlike(x, y, 2, v % 16, 0);
        } else if quad == 2 {
          ScanAlike(x, y, 3, v % 4, 0);
        } else {
          ScanAlike(x, y, 0, 0, 0);
        }
      }
    }
  }

  /** A text in the standard alphabet decodes like the same text in the URL-safe one. */
  lemma StandardAlphabetToo(urlSafe: string, standard: string)
    requires |urlSafe| == |standard| && forall i :: 0 <= i < |urlSafe| ==> Alike(urlSafe[i], standard[i])
    ensures Decode(urlSafe) == Decode(standard)
  {
    var a, b := urlSafe + Padding(urlSafe), standard + Padding(standard);
    assert Padding(urlSafe) == Padding(standard);
    ScanAlike(a, b, 0, 0, 0);
    AsciiAlike(urlSafe, standard);
  }

  lemma {:induction false} AsciiAlike(a: string, b: string)
    requires |a| == |b| && forall i :: 0 <= i < |a| ==> Alike(a[i], b[i])
    ensures IsAscii(a) <==> IsAscii(b)
  {
    forall i | 0 <= i < |a| ensures a[i] as int < 128 <==> b[i] as int < 128 {
      assert Alike(a[i], b[i]);
    }
    if IsAscii(a) {
      forall c | c in b ensures c as int < 128 {
        var i :| 0 <= i < |b| && b[i] == c;
        assert a[i] in a;
      }
    }
    if IsAscii(b) {
      forall c | c in a ensures c as int < 128 {
        var i :| 0 <= i < |a| && a[i] == c;
        assert b[i] in b;
      }
    }
  }

  lemma AsciiAppend(a: string, b: string)
    ensures IsAscii(a + b) <==> IsAscii(a) && IsAscii(b)
  {
    assert forall c :: c in a + b <==> c in a || c in b;
  }

  lemma {:induction false} ScanSkips(a: string, c: char, b: string, quad: nat, left: nat, pads: nat)
    requires c != '=' && Sextet(c).None?
    requires (quad == 0 && left == 0) || (quad == 1 && left < 64) || (quad == 2 && left < 16) || (quad == 3 && left < 4)
    ensures Scan(a + [c] + b, quad, left, pads) == Scan(a + b, quad, left, pads)
    decreases |a|
  {
    var long, short := a + [c] + b, a + b;
    if a == [] {
      assert long[1..] == short;
    } else {
      var x := a[1..];
      assert long[1..] == x + [c] + b && short[1..] == x + b;
      if a[0] == '=' || Sextet(a[0]).None? {
        ScanSkips(x, c, b, quad, left, pads);
        ScanSkips(x, c, b, quad, left, pads + 1);
      } else {
        var v := Sextet(a[0]).value;
        if quad == 0 {
          ScanSkips(x, c, b, 1, v, 0);
        } else if quad == 1 {
          ScanSkips(x, c, b, 2, v % 16, 0);
        } else if quad == 2 {
          ScanSkips(x, c, b, 3, v % 4, 0);
        } else {
          ScanSkips(x, c, b, 0, 0, 0);
        }
      }
    }
  }

  /** Four characters outside the alphabet, anywhere in a text, change nothing: the padding stays the same. */
  lemma OtherCharactersAreSkipped(a: string, c: char, b: string)
    requires c != '=' && Sextet(c).None? && c as int < 128
    ensures Decode(a + [c] + [c] + [c] + [c] + b) == Decode(a + b)
  {
    var long := a + [c] + [c] + [c] + [c] + b;
    var pad := Padding(a + b);
    assert Padding(long) == pad;
    ScanSkips(a, c, b + pad, 0, 0, 0);
    ScanSkips(a + [c], c, b + pad, 0, 0, 0);
    ScanSkips(a + [c] + [c], c, b + pad, 0, 0, 0);
    ScanSkips(a + [c] + [c] + [c], c, b + pad, 0, 0, 0);
    assert long + pad == a + [c] + [c] + [c] + [c] + (b + pad) && a + b + pad == a + (b + pad);
    AsciiAppend(a, b);
    AsciiAppend(a, [c] + [c] + [c] + [c]);
    AsciiAppend(a + ([c] + [c] + [c] + [c]), b);
    assert long == a + ([c] + [c] + [c] + [c]) + b;
  }
}
