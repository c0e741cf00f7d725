/**
 * src/utils.py: the chunking constants and the regulation identifier, the
 * SHA-256 hex digest of the UTF-8 bytes of `(date_of_law or "") + "|" + text`.
 * SHA-256 itself is not modelled: the digest function is a parameter.
 */
module Utils {
  import opened Wrappers
  import opened Arith

  /** Characters per chunk handed to the text splitter. */
  const ChunkSize: nat := 400

  /** Characters shared by consecutive chunks. */
  const ChunkOverlap: nat := 50

  /** The splitter is configured with a positive overlap smaller than the chunk size. */
  lemma ChunkingConstantsConsistent()
    ensures 0 < ChunkOverlap < ChunkSize
  {
  }

  type Byte = x: int | 0 <= x < 256

  /** The UTF-8 encoding of one Unicode scalar value. */
  function EncodeChar(c: char): (bs: seq<Byte>)
    ensures 1 <= |bs| <= 4
  {
    var cp := c as int;
    if cp < 0x80 then [cp]
    else if cp < 0x800 then [0xC0 + cp / 64, 0x80 + cp % 64]
    else if cp < 0x10000 then [0xE0 + cp / 4096, 0x80 + (cp / 64) % 64, 0x80 + cp % 64]
    else [0xF0 + cp / 262144, 0x80 + (cp / 4096) % 64, 0x80 + (cp / 64) % 64, 0x80 + cp % 64]
  }

  /** Python's `s.encode()`: UTF-8, character by character. */
  function Utf8Encode(s: string): (bs: seq<Byte>)
    ensures |s| <= |bs| <= 4 * |s|
    ensures (forall i :: 0 <= i < |s| ==> s[i] as int < 0x80) ==>
      |bs| == |s| && forall i :: 0 <= i < |s| ==> bs[i] == s[i] as int
  {
    if s == [] then [] else EncodeChar(s[0]) + Utf8Encode(s[1..])
  }

  /** The scalar value for a code point, when it is one. */
  function ToChar(cp: int): Option<char>
  {
    if 0 <= cp < 0xD800 || 0xE000 <= cp < 0x110000 then Some(cp as char) else None
  }

  /** A continuation byte: `10xxxxxx`. */
  predicate IsContinuation(b: Byte)
  {
    0x80 <= b < 0xC0
  }

  /** The scalar value for a code point decoded from a sequence whose shortest form needs at least `least`. */
  function ScalarAtLeast(cp: int, least: int): Option<char>
  {
    if cp < least then None else ToChar(cp)
  }

  /**
   * Reads one character off the front of `bs`, with the number of bytes it
   * took, accepting only the well-formed sequences of section 3 of RFC 3629:
   * continuation bytes in 0x80..0xBF, no overlong form, no surrogate, nothing
   * above U+10FFFF.
   */
  function DecodeChar(bs: seq<Byte>): (r: Option<(char, nat)>)
    requires |bs| > 0
    ensures r.Some? ==> 1 <= r.value.1 <= |bs|
  {
    var b0 := bs[0] as int;
    if b0 < 0x80 then Some((b0 as char, 1))
    else if b0 < 0xC2 then None
    else if b0 < 0xE0 then
      if |bs| < 2 || !IsContinuation(bs[1]) then None
      else match ScalarAtLeast((b0 - 0xC0) * 64 + (bs[1] as int - 0x80), 0x80)
        case None => None
        case Some(c) => Some((c, 2))
    else if b0 < 0xF0 then
      if |bs| < 3 || !IsContinuation(bs[1]) || !IsContinuation(bs[2]) then None
      else match ScalarAtLeast((b0 - 0xE0) * 4096 + (bs[1] as int - 0x80) * 64 + (bs[2] as int - 0x80), 0x800)
        case None => None
        case Some(c) => Some((c, 3))
    else if b0 < 0xF5 then
      if |bs| < 4 || !IsContinuation(bs[1]) || !IsContinuation(bs[2]) || !IsContinuation(bs[3]) then None
      else match ScalarAtLeast((b0 - 0xF0) * 262144 + (bs[1] as int - 0x80) * 4096 + (bs[2] as int - 0x80) * 64 + (bs[3] as int - 0x80), 0x10000)
        case None => None
        case Some(c) => Some((c, 4))
    else None
  }

  /** A strict UTF-8 reader: the whole byte string must be well-formed. */
  function Utf8Decode(bs: seq<Byte>): Option<string>
    decreases |bs|
  {
    if bs == [] then Some([])
    else match DecodeChar(bs)
      case None => None
      case Some((c, k)) =>
        match Utf8Decode(bs[k..])
        case None => None
        case Some(rest) => Some([c] + rest)
  }

  /** The digits in base 64 of a code point, most significant first. */
  lemma Base64Digits(cp: int)
    requires cp >= 0
    ensures cp == (cp / 64) * 64 + cp % 64
    ensures cp / 64 == (cp / 4096) * 64 + (cp / 64) % 64
    ensures cp / 4096 == (cp / 262144) * 64 + (cp / 4096) % 64
  {
    ModUnique(cp, 4096, cp / 64 / 64, (cp / 64 % 64) * 64 + cp % 64);
    ModUnique(cp, 262144, cp / 4096 / 64, (cp / 4096 % 64) * 4096 + (cp / 64 % 64) * 64 + cp % 64);
  }

  /** The two-byte encoding of a character is read back as that character. */
  lemma DecodeEncodeTwo(c: char, rest: seq<Byte>)
    requires 0x80 <= c as int < 0x800
    ensures DecodeChar(EncodeChar(c) + rest) == Some((c, 2))
  {
    var cp := c as int;
    var bs := EncodeChar(c) + rest;
    assert bs[0] == 0xC0 + cp / 64 && bs[1] == 0x80 + cp % 64;
  }

  /** The three-byte encoding of a character is read back as that character. */
  lemma DecodeEncodeThree(c: char, rest: seq<Byte>)
    requires 0x800 <= c as int < 0x10000
    ensures DecodeChar(EncodeChar(c) + rest) == Some((c, 3))
  {
    var cp := c as int;
    var bs := EncodeChar(c) + rest;
    Base64Digits(cp);
    assert bs[0] == 0xE0 + cp / 4096 && bs[1] == 0x80 + (cp / 64) % 64 && bs[2] == 0x80 + cp % 64;
  }

  /** The four-byte encoding of a character is read back as that character. */
  lemma DecodeEncodeFour(c: char, rest: seq<Byte>)
    requires 0x10000 <= c as int
    ensures DecodeChar(EncodeChar(c) + rest) == Some((c, 4))
  {
    var cp := c as int;
    var bs := EncodeChar(c) + rest;
    Base64Digits(cp);
    assert bs[0] == 0xF0 + cp / 262144 && bs[1] == 0x80 + (cp / 4096) % 64
      && bs[2] == 0x80 + (cp / 64) % 64 && bs[3] == 0x80 + cp % 64;
  }

  /** The encoding of one character is read back as that character. */
  lemma DecodeEncodeChar(c: char, rest: seq<Byte>)
    ensures DecodeChar(EncodeChar(c) + rest) == Some((c, |EncodeChar(c)|))
  {
    var cp := c as int;
    if cp < 0x80 {
    } else if cp < 0x800 {
      DecodeEncodeTwo(c, rest);
    } else if cp < 0x10000 {
      DecodeEncodeThree(c, rest);
    } else {
      DecodeEncodeFour(c, rest);
    }
  }

  /** Decoding undoes encoding. */
  lemma {:induction false} DecodeEncode(s: string)
    ensures Utf8Decode(Utf8Encode(s)) == Some(s)
  {
    if s != [] {
      var head, tail := EncodeChar(s[0]), Utf8Encode(s[1..]);
      DecodeEncodeChar(s[0], tail);
      assert (head + tail)[|head|..] == tail;
      DecodeEncode(s[1..]);
      assert [s[0]] + s[1..] == s;
    }
  }

  /** A well-formed two-byte sequence is the encoding of the character it carries. */
  lemma EncodeTwo(b0: int, x1: int)
    requires 2 <= b0 < 32 && 0 <= x1 < 64
    ensures EncodeChar((b0 * 64 + x1) as char) == [0xC0 + b0, 0x80 + x1]
  {
    ModUnique(b0 * 64 + x1, 64, b0, x1);
  }

  /** A well-formed three-byte sequence is the encoding of the character it carries. */
  lemma EncodeThree(b0: int, x1: int, x2: int)
    requires 0 <= b0 < 16 && 0 <= x1 < 64 && 0 <= x2 < 64
    requires 0x800 <= (b0 * 64 + x1) * 64 + x2 && !(0xD800 <= (b0 * 64 + x1) * 64 + x2 < 0xE000)
    ensures EncodeChar(((b0 * 64 + x1) * 64 + x2) as char) == [0xE0 + b0, 0x80 + x1, 0x80 + x2]
  {
    var cp := (b0 * 64 + x1) * 64 + x2;
    ModUnique(cp, 64, b0 * 64 + x1, x2);
    ModUnique(b0 * 64 + x1, 64, b0, x1);
    ModUnique(cp, 4096, b0, x1 * 64 + x2);
  }

  /** A well-formed four-byte sequence is the encoding of the character it carries. */
  lemma EncodeFour(b0: int, x1: int, x2: int, x3: int)
    requires 0 <= b0 < 5 && 0 <= x1 < 64 && 0 <= x2 < 64 && 0 <= x3 < 64
    requires 0x10000 <= ((b0 * 64 + x1) * 64 + x2) * 64 + x3 < 0x110000
    ensures EncodeChar((((b0 * 64 + x1) * 64 + x2) * 64 + x3) as char) == [0xF0 + b0, 0x80 + x1, 0x80 + x2, 0x80 + x3]
  {
    var cp := ((b0 * 64 + x1) * 64 + x2) * 64 + x3;
    ModUnique(cp, 64, (b0 * 64 + x1) * 64 + x2, x3);
    ModUnique((b0 * 64 + x1) * 64 + x2, 64, b0 * 64 + x1, x2);
    ModUnique(cp, 4096, b0 * 64 + x1, x2 * 64 + x3);
    ModUnique(b0 * 64 + x1, 64, b0, x1);
    ModUnique(cp, 262144, b0, (x1 * 64 + x2) * 64 + x3);
  }

  /** A character the strict reader accepts was written in its one UTF-8 form. */
  lemma EncodeCharOfDecode(bs: seq<Byte>)
    requires |bs| > 0 && DecodeChar(bs).Some?
    ensures DecodeChar(bs).value.1 <= |bs|
    ensures bs[..DecodeChar(bs).value.1] == EncodeChar(DecodeChar(bs).value.0)
  {
    var b0 := bs[0] as int;
    if b0 < 0x80 {
    } else if b0 < 0xE0 {
      EncodeTwo(b0 - 0xC0, bs[1] as int - 0x80);
    } else if b0 < 0xF0 {
      EncodeThree(b0 - 0xE0, bs[1] as int - 0x80, bs[2] as int - 0x80);
    } else {
      EncodeFour(b0 - 0xF0, bs[1] as int - 0x80, bs[2] as int - 0x80, bs[3] as int - 0x80);
    }
  }

  /**
   * A non-empty byte string the strict reader accepts starts with the UTF-8
   * form of the first character read, and the reader accepts the rest.
   */
  lemma DecodeSplit(bs: seq<Byte>, s: string) returns (k: nat)
    requires bs != [] && Utf8Decode(bs) == Some(s)
    ensures 0 < k <= |bs| && s != []
    ensures bs[..k] == EncodeChar(s[0])
    ensures Utf8Decode(bs[k..]) == Some(s[1..])
  {
    k := DecodeChar(bs).value.1;
    EncodeCharOfDecode(bs);
    assert s == [DecodeChar(bs).value.0] + Utf8Decode(bs[k..]).value;
  }

  /** The strict reader accepts only what the encoder writes: the UTF-8 form of a string is unique. */
  lemma {:induction false} DecodeUnique(bs: seq<Byte>, s: string)
    requires Utf8Decode(bs) == Some(s)
    ensures bs == Utf8Encode(s)
    decreases |bs|
  {
    if bs != [] {
      var k := DecodeSplit(bs, s);
      DecodeUnique(bs[k..], s[1..]);
      assert bs == bs[..k] + bs[k..];
    }
  }

  /** Distinct strings have distinct encodings. */
  lemma EncodeInjective(s1: string, s2: string)
    requires Utf8Encode(s1) == Utf8Encode(s2)
    ensures s1 == s2
  {
    DecodeEncode(s1);
    DecodeEncode(s2);
  }

  /** Python's `date_of_law or ""`. */
  function DateOrEmpty(dateOfLaw: Option<string>): string
  {
    dateOfLaw.GetOr("")
  }

  /** The string that is hashed: the date (or nothing), a bar, then the regulation text. */
  function RegulationBase(text: string, dateOfLaw: Option<string>): (base: string)
    ensures |base| == |DateOrEmpty(dateOfLaw)| + 1 + |text|
    ensures base[|DateOrEmpty(dateOfLaw)|] == '|'
    ensures base[..|DateOrEmpty(dateOfLaw)|] == DateOrEmpty(dateOfLaw)
    ensures base[|DateOrEmpty(dateOfLaw)| + 1..] == text
  {
    DateOrEmpty(dateOfLaw) + "|" + text
  }

  /** Splits a string at its first bar, if it has one. */
  function SplitAtFirstBar(s: string): (r: Option<(string, string)>)
    ensures r.Some? ==> '|' !in r.value.0 && s == r.value.0 + "|" + r.value.1
    decreases |s|
  {
    if s == [] then None
    else if s[0] == '|' then Some(([], s[1..]))
    else match SplitAtFirstBar(s[1..])
      case None => None
      case Some((d, t)) => Some(([s[0]] + d, t))
  }

  /** With no bar in the date, the base string splits back into date and text. */
  lemma {:induction false} BaseSplitsBack(text: string, dateOfLaw: Option<string>)
    requires '|' !in DateOrEmpty(dateOfLaw)
    ensures SplitAtFirstBar(RegulationBase(text, dateOfLaw)) == Some((DateOrEmpty(dateOfLaw), text))
  {
    SplitPrefix(DateOrEmpty(dateOfLaw), text);
  }

  lemma {:induction false} SplitPrefix(d: string, t: string)
    requires '|' !in d
    ensures SplitAtFirstBar(d + "|" + t) == Some((d, t))
    decreases |d|
  {
    if d != [] {
      SplitPrefix(d[1..], t);
      assert (d + "|" + t)[1..] == d[1..] + "|" + t;
      assert [d[0]] + d[1..] == d;
    }
  }

  /** `regulation_id_for`, with the SHA-256 hex digest supplied as `sha256`. */
  function RegulationIdFor(text: string, dateOfLaw: Option<string>, sha256: seq<Byte> -> string): (id: string)
    ensures exists bs :: id == sha256(bs) && Utf8Decode(bs) == Some(DateOrEmpty(dateOfLaw) + "|" + text)
  {
    var bs := Utf8Encode(RegulationBase(text, dateOfLaw));
    DecodeEncode(RegulationBase(text, dateOfLaw));
    sha256(bs)
  }

  /** No date and an empty date give the same identifier. */
  lemma MissingDateIsEmptyDate(text: string, sha256: seq<Byte> -> string)
    ensures RegulationIdFor(text, None, sha256) == RegulationIdFor(text, Some(""), sha256)
  {
  }

  /**
   * When neither date contains a bar, different (date, text) pairs (a missing
   * date counting as empty) give different bytes to hash, so their
   * identifiers can only agree through a SHA-256 collision.
   */
  lemma DistinctInputsDistinctDigestInput(text1: string, date1: Option<string>, text2: string, date2: Option<string>)
    requires '|' !in DateOrEmpty(date1) && '|' !in DateOrEmpty(date2)
    requires (DateOrEmpty(date1), text1) != (DateOrEmpty(date2), text2)
    ensures Utf8Encode(RegulationBase(text1, date1)) != Utf8Encode(RegulationBase(text2, date2))
  {
    if Utf8Encode(RegulationBase(text1, date1)) == Utf8Encode(RegulationBase(text2, date2)) {
      EncodeInjective(RegulationBase(text1, date1), RegulationBase(text2, date2));
      BaseSplitsBack(text1, date1);
      BaseSplitsBack(text2, date2);
    }
  }

  /** A bar inside the date lets two different pairs share an identifier. */
  lemma BarInDateCollides(sha256: seq<Byte> -> string)
    ensures RegulationIdFor("c", Some("a|b"), sha256) == RegulationIdFor("b|c", Some("a"), sha256)
  {
    assert RegulationBase("c", Some("a|b")) == RegulationBase("b|c", Some("a"));
  }

  /** 64 lower-case hexadecimal digits, the shape of `hexdigest()` for SHA-256. */
  predicate IsHexDigest(h: string)
  {
    |h| == 64 && forall i :: 0 <= i < |h| ==> h[i] in "0123456789abcdef"
  }

  /** If the digest function yields hex digests, so does `regulation_id_for`. */
  lemma RegulationIdIsHexDigest(text: string, dateOfLaw: Option<string>, sha256: seq<Byte> -> string)
    requires forall bs :: IsHexDigest(sha256(bs))
    ensures IsHexDigest(RegulationIdFor(text, dateOfLaw, sha256))
  {
  }
}
