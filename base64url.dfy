/**
 * Unpadded base64url, the "URL and Filename safe" alphabet of section 5 of
 * RFC 4648 without '=' padding, with the decoding rules of Go's
 * `base64.RawURLEncoding`: carriage returns and line feeds are skipped, a
 * final group of one character is an error, and unused trailing bits of a
 * final group of two or three characters are ignored.
 */
module Base64Url {
  import opened Bytes
  import opened Wrappers

  /** The only way decoding fails: Go's `CorruptInputError`. */
  datatype DecodeError = CorruptInput

  /** Characters of the URL-safe alphabet: A-Z a-z 0-9 - _ */
  predicate IsAlphabet(c: char)
  {
    ('A' <= c <= 'Z') || ('a' <= c <= 'z') || ('0' <= c <= '9') || c == '-' || c == '_'
  }

  /** The character for a 6-bit value. */
  function Char(i: int): (c: char)
    requires 0 <= i < 64
    ensures IsAlphabet(c)
  {
    if i < 26 then ('A' as int + i) as char
    else if i < 52 then ('a' as int + (i - 26)) as char
    else if i < 62 then ('0' as int + (i - 52)) as char
    else if i == 62 then '-'
    else '_'
  }

  /** The 6-bit value of an alphabet character; the inverse of Char. */
  function Index(c: char): (i: int)
    requires IsAlphabet(c)
    ensures 0 <= i < 64 && Char(i) == c
  {
    if 'A' <= c <= 'Z' then c as int - 'A' as int
    else if 'a' <= c <= 'z' then c as int - 'a' as int + 26
    else if '0' <= c <= '9' then c as int - '0' as int + 52
    else if c == '-' then 62
    else 63
  }

  lemma IndexChar(i: int)
    requires 0 <= i < 64
    ensures Index(Char(i)) == i
  {
  }

  /** Length of the unpadded encoding of n bytes. */
  function EncodedLength(n: nat): nat
  {
    4 * (n / 3) + (if n % 3 == 0 then 0 else n % 3 + 1)
  }

  /** The two characters that encode a final single byte. */
  function Tail1(b0: byte): string
  {
    [Char(b0 / 4), Char(b0 % 4 * 16)]
  }

  /** The three characters that encode a final pair of bytes. */
  function Tail2(b0: byte, b1: byte): string
  {
    [Char(b0 / 4), Char(b0 % 4 * 16 + b1 / 16), Char(b1 % 16 * 4)]
  }

  /** The four characters that encode three bytes. */
  function Quad(b0: byte, b1: byte, b2: byte): string
  {
    [Char(b0 / 4), Char(b0 % 4 * 16 + b1 / 16), Char(b1 % 16 * 4 + b2 / 64), Char(b2 % 64)]
  }

  /** `base64.RawURLEncoding.EncodeToString`. */
  function Encode(b: Bytes): (s: string)
    ensures |s| == EncodedLength(|b|)
    ensures forall i :: 0 <= i < |s| ==> IsAlphabet(s[i])
    decreases |b|
  {
    if |b| == 0 then ""
    else if |b| == 1 then Tail1(b[0])
    else if |b| == 2 then Tail2(b[0], b[1])
    else Quad(b[0], b[1], b[2]) + Encode(b[3..])
  }

  /** The input with every '\r' and '\n' removed, as Go's decoder skips them. */
  function Strip(s: string): (t: string)
    ensures |t| <= |s|
  {
    if s == [] then []
    else (if s[0] == '\r' || s[0] == '\n' then [] else [s[0]]) + Strip(s[1..])
  }

  /** Decoding of a string that holds no line breaks, four characters at a time. */
  function DecodeGroups(t: string): Result<Bytes, DecodeError>
    decreases |t|
  {
    if |t| == 0 then Ok([])
    else if |t| == 1 || !IsAlphabet(t[0]) || !IsAlphabet(t[1]) then Err(CorruptInput)
    else
      var i0, i1 := Index(t[0]), Index(t[1]);
      var b0 := i0 * 4 + i1 / 16;
      if |t| == 2 then Ok([b0])
      else if !IsAlphabet(t[2]) then Err(CorruptInput)
      else
        var i2 := Index(t[2]);
        var b1 := i1 % 16 * 16 + i2 / 4;
        if |t| == 3 then Ok([b0, b1])
        else if !IsAlphabet(t[3]) then Err(CorruptInput)
        else
          var i3 := Index(t[3]);
          var b2 := i2 % 4 * 64 + i3;
          match DecodeGroups(t[4..])
          case Err(e) => Err(e)
          case Ok(rest) => Ok([b0, b1, b2] + rest)
  }

  /** `base64.RawURLEncoding.DecodeString`. */
  function Decode(s: string): Result<Bytes, DecodeError>
  {
    DecodeGroups(Strip(s))
  }

  lemma {:induction false} StripAlphabet(s: string)
    requires forall i :: 0 <= i < |s| ==> IsAlphabet(s[i])
    ensures Strip(s) == s
  {
    if s != [] {
      StripAlphabet(s[1..]);
    }
  }

  /** The arithmetic of one full group: three bytes survive the trip through four 6-bit values. */
  lemma Group3(b0: byte, b1: byte, b2: byte)
    ensures (b0 / 4) * 4 + (b0 % 4 * 16 + b1 / 16) / 16 == b0
    ensures (b0 % 4 * 16 + b1 / 16) % 16 * 16 + (b1 % 16 * 4 + b2 / 64) / 4 == b1
    ensures (b1 % 16 * 4 + b2 / 64) % 4 * 64 + b2 % 64 == b2
  {
  }

  lemma DecodeTail1(b0: byte)
    ensures DecodeGroups(Tail1(b0)) == Ok([b0])
  {
    IndexChar(b0 / 4);
    IndexChar(b0 % 4 * 16);
    Group3(b0, 0, 0);
  }

  lemma DecodeTail2(b0: byte, b1: byte)
    ensures DecodeGroups(Tail2(b0, b1)) == Ok([b0, b1])
  {
    IndexChar(b0 / 4);
    IndexChar(b0 % 4 * 16 + b1 / 16);
    IndexChar(b1 % 16 * 4);
    Group3(b0, b1, 0);
  }

  lemma DecodeQuad(b0: byte, b1: byte, b2: byte, rest: string)
    ensures DecodeGroups(Quad(b0, b1, b2) + rest) ==
            match DecodeGroups(rest)
            case Err(e) => Err(e)
            case Ok(r) => Ok([b0, b1, b2] + r)
  {
    var t := Quad(b0, b1, b2) + rest;
    IndexChar(b0 / 4);
    IndexChar(b0 % 4 * 16 + b1 / 16);
    IndexChar(b1 % 16 * 4 + b2 / 64);
    IndexChar(b2 % 64);
    Group3(b0, b1, b2);
    assert t[4..] == rest;
  }

  lemma {:induction false} DecodeGroupsEncode(b: Bytes)
    ensures DecodeGroups(Encode(b)) == Ok(b)
    decreases |b|
  {
    if |b| == 1 {
      DecodeTail1(b[0]);
      assert b == [b[0]];
    } else if |b| == 2 {
      DecodeTail2(b[0], b[1]);
      assert b == [b[0], b[1]];
    } else if |b| > 2 {
      DecodeQuad(b[0], b[1], b[2], Encode(b[3..]));
      DecodeGroupsEncode(b[3..]);
      assert b == [b[0], b[1], b[2]] + b[3..];
    }
  }

  /** Decoding the encoding of any byte string gives that byte string back. */
  lemma RoundTrip(b: Bytes)
    ensures Decode(Encode(b)) == Ok(b)
  {
    StripAlphabet(Encode(b));
    DecodeGroupsEncode(b);
  }

  lemma {:induction false} StripKeeps(s: string, i: nat)
    requires i < |s| && s[i] != '\r' && s[i] != '\n'
    ensures exists j :: 0 <= j < |Strip(s)| && Strip(s)[j] == s[i]
  {
    if i == 0 {
      assert Strip(s)[0] == s[0];
    } else {
      StripKeeps(s[1..], i - 1);
      var j :| 0 <= j < |Strip(s[1..])| && Strip(s[1..])[j] == s[i];
      var head := if s[0] == '\r' || s[0] == '\n' then [] else [s[0]];
      assert Strip(s)[|head| + j] == s[i];
    }
  }

  lemma {:induction false} DecodeGroupsRejects(t: string, j: nat)
    requires j < |t| && !IsAlphabet(t[j])
    ensures DecodeGroups(t).Err?
    decreases |t|
  {
    if |t| > 4 && j >= 4 {
      DecodeGroupsRejects(t[4..], j - 4);
    }
  }

  /** A character outside the alphabet (other than a line break) makes decoding fail. */
  lemma DecodeRejects(s: string, i: nat)
    requires i < |s| && !IsAlphabet(s[i]) && s[i] != '\r' && s[i] != '\n'
    ensures Decode(s).Err?
  {
    StripKeeps(s, i);
    var j :| 0 <= j < |Strip(s)| && Strip(s)[j] == s[i];
    DecodeGroupsRejects(Strip(s), j);
  }
}
