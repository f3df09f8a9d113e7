/**
 * Decoding of the object key carried by a storage-event record: every `+`
 * becomes a space, then percent-escapes are decoded (`decodeURIComponent`).
 * Percent-decoding is modelled for escapes of ASCII characters only.
 */
module Uri {
  import opened Wrappers

  /** The regular-expression replacement `.replace(/\+/g, ' ')`. */
  function PlusToSpace(s: string): (r: string)
    ensures |r| == |s|
    ensures forall i :: 0 <= i < |s| ==> r[i] == (if s[i] == '+' then ' ' else s[i])
  {
    if s == [] then [] else [if s[0] == '+' then ' ' else s[0]] + PlusToSpace(s[1..])
  }

  lemma {:induction false} PlusToSpaceConcat(a: string, b: string)
    ensures PlusToSpace(a + b) == PlusToSpace(a) + PlusToSpace(b)
  {
    var l, r := PlusToSpace(a + b), PlusToSpace(a) + PlusToSpace(b);
    assert |l| == |r|;
    forall i | 0 <= i < |l| ensures l[i] == r[i] {
      if i < |a| {
        assert (a + b)[i] == a[i];
      } else {
        assert (a + b)[i] == b[i - |a|];
      }
    }
  }

  predicate IsHex(c: char) {
    '0' <= c <= '9' || 'a' <= c <= 'f' || 'A' <= c <= 'F'
  }

  function HexValue(c: char): (v: nat)
    requires IsHex(c)
    ensures v < 16
  {
    if '0' <= c <= '9' then c as int - '0' as int
    else if 'a' <= c <= 'f' then c as int - 'a' as int + 10
    else c as int - 'A' as int + 10
  }

  predicate IsAscii(s: string) {
    forall i :: 0 <= i < |s| ==> s[i] as int < 128
  }

  /**
   * `decodeURIComponent` on ASCII escapes. `None` stands for the `URIError`
   * thrown on a `%` that is not followed by two hexadecimal digits; in this
   * model an escape of a byte of 0x80 or more is refused as well.
   */
  function PercentDecode(s: string): Option<string>
    decreases |s|
  {
    if s == [] then Some([])
    else if s[0] != '%' then
      match PercentDecode(s[1..])
      case None => None
      case Some(t) => Some([s[0]] + t)
    else if |s| < 3 || !IsHex(s[1]) || !IsHex(s[2]) then None
    else
      var v := 16 * HexValue(s[1]) + HexValue(s[2]);
      if v >= 128 then None
      else
        match PercentDecode(s[3..])
        case None => None
        case Some(t) => Some([v as char] + t)
  }

  /** The key a handler works on: `decodeURIComponent(raw.replace(/\+/g, ' '))`. */
  function DecodeKey(raw: string): Option<string> {
    PercentDecode(PlusToSpace(raw))
  }

  /** Characters an event record carries unescaped. */
  predicate IsUnreserved(c: char) {
    'a' <= c <= 'z' || 'A' <= c <= 'Z' || '0' <= c <= '9' || c in "-_.~/"
  }

  function HexDigit(n: nat): (c: char)
    requires n < 16
    ensures IsHex(c) && HexValue(c) == n
  {
    "0123456789ABCDEF"[n]
  }

  /** How the storage service writes one ASCII character of a key into an event record. */
  function EncodeChar(c: char): string
    requires c as int < 128
  {
    if c == ' ' then "+"
    else if IsUnreserved(c) then [c]
    else ['%', HexDigit(c as int / 16), HexDigit(c as int % 16)]
  }

  /** The event-record form of an ASCII key: spaces as `+`, other reserved characters as `%XY`. */
  function EncodeKey(s: string): string
    requires IsAscii(s)
  {
    if s == [] then [] else EncodeChar(s[0]) + EncodeKey(s[1..])
  }

  /** One encoded character decodes back to itself in front of any rest. */
  lemma DecodeEncodedChar(c: char, rest: string)
    requires c as int < 128
    ensures DecodeKey(EncodeChar(c) + rest) ==
      match DecodeKey(rest)
      case None => None
      case Some(t) => Some([c] + t)
  {
    PlusToSpaceConcat(EncodeChar(c), rest);
    var tail := PlusToSpace(rest);
    if c == ' ' {
      assert PlusToSpace("+") == " ";
      assert (" " + tail)[1..] == tail;
    } else if IsUnreserved(c) {
      assert PlusToSpace([c]) == [c];
      assert ([c] + tail)[1..] == tail;
    } else {
      var e := EncodeChar(c);
      assert PlusToSpace(e) == e;
      var s := e + tail;
      assert s[0] == '%' && s[1] == e[1] && s[2] == e[2] && s[3..] == tail;
      assert 16 * HexValue(e[1]) + HexValue(e[2]) == c as int;
    }
  }

  /** Decoding what the storage service encoded gives back the key. */
  lemma {:induction false} DecodeEncodeRoundTrip(s: string)
    requires IsAscii(s)
    ensures DecodeKey(EncodeKey(s)) == Some(s)
  {
    if s == [] {
      assert PlusToSpace([]) == [];
    } else {
      assert IsAscii(s[1..]) by {
        forall i | 0 <= i < |s[1..]| ensures s[1..][i] as int < 128 {
          assert s[1..][i] == s[i + 1];
        }
      }
      DecodeEncodeRoundTrip(s[1..]);
      DecodeEncodedChar(s[0], EncodeKey(s[1..]));
      assert [s[0]] + s[1..] == s;
    }
  }

  /** A raw key with no `%` decodes to itself with every `+` turned into a space. */
  lemma {:induction false} DecodeWithoutEscapes(raw: string)
    requires '%' !in raw
    ensures DecodeKey(raw) == Some(PlusToSpace(raw))
    ensures '+' !in PlusToSpace(raw)
  {
    PercentDecodePlain(PlusToSpace(raw));
  }

  lemma {:induction false} PercentDecodePlain(s: string)
    requires '%' !in s
    ensures PercentDecode(s) == Some(s)
    decreases |s|
  {
    if s != [] {
      assert '%' !in s[1..] by {
        forall i | 0 <= i < |s[1..]| ensures s[1..][i] != '%' {
          assert s[1..][i] == s[i + 1];
        }
      }
      PercentDecodePlain(s[1..]);
      assert [s[0]] + s[1..] == s;
    }
  }
}
