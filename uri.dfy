/** Percent-encoding as the storefront uses it: `encodeURIComponent` (over the
    UTF-8 bytes of each character), `decodeURIComponent` for escapes of ASCII
    bytes, and the `URLSearchParams` list with its `set`, `get` and
    application/x-www-form-urlencoded serialisation (section 5 of the WHATWG URL
    Standard). */
module Uri {
  import opened Wrappers
  import opened Strings

  /** The UTF-8 encoding of one Unicode scalar value. */
  function Utf8(c: char): (bytes: seq<nat>)
    ensures 1 <= |bytes| <= 4
    ensures forall k :: 0 <= k < |bytes| ==> bytes[k] < 256
    ensures c as int < 0x80 <==> |bytes| == 1
    ensures c as int < 0x80 ==> bytes == [c as int]
  {
    var n := c as int;
    if n < 0x80 then [n]
    else if n < 0x800 then [0xC0 + n / 64, 0x80 + n % 64]
    else if n < 0x1_0000 then [0xE0 + n / 4096, 0x80 + (n / 64) % 64, 0x80 + n % 64]
    else [0xF0 + n / 262144, 0x80 + (n / 4096) % 64, 0x80 + (n / 64) % 64, 0x80 + n % 64]
  }

  function HexDigit(d: nat): (c: char)
    requires d < 16
    ensures IsHexDigit(c) && HexValue(c) == d
  {
    if d < 10 then ('0' as int + d) as char else ('A' as int + d - 10) as char
  }

  predicate IsHexDigit(c: char)
  {
    IsDigit(c) || 'A' <= c <= 'F' || 'a' <= c <= 'f'
  }

  function HexValue(c: char): (d: nat)
    requires IsHexDigit(c)
    ensures d < 16
  {
    if IsDigit(c) then c as int - '0' as int
    else if 'A' <= c <= 'F' then c as int - 'A' as int + 10
    else c as int - 'a' as int + 10
  }

  /** `%XY` with upper-case hexadecimal digits. */
  function PercentBytes(bytes: seq<nat>): (r: string)
    requires forall k :: 0 <= k < |bytes| ==> bytes[k] < 256
    ensures |r| == 3 * |bytes|
  {
    if bytes == [] then ""
    else ['%', HexDigit(bytes[0] / 16), HexDigit(bytes[0] % 16)] + PercentBytes(bytes[1..])
  }

  /** The characters `encodeURIComponent` leaves as they are. */
  predicate IsUriUnreserved(c: char)
  {
    IsAsciiAlnum(c) || c == '-' || c == '_' || c == '.' || c == '!' || c == '~'
    || c == '*' || c == '\'' || c == '(' || c == ')'
  }

  function EncodeUriChar(c: char): (r: string)
    ensures IsUriUnreserved(c) ==> r == [c]
    ensures !IsUriUnreserved(c) ==> r != [] && r[0] == '%'
  {
    if IsUriUnreserved(c) then [c] else PercentBytes(Utf8(c))
  }

  /** `encodeURIComponent`. */
  function EncodeUriComponent(s: string): (r: string)
    ensures |r| >= |s|
    ensures (forall i :: 0 <= i < |s| ==> IsUriUnreserved(s[i])) ==> r == s
  {
    if s == [] then "" else EncodeUriChar(s[0]) + EncodeUriComponent(s[1..])
  }

  lemma {:induction false} EncodeUriComponentConcat(a: string, b: string)
    ensures EncodeUriComponent(a + b) == EncodeUriComponent(a) + EncodeUriComponent(b)
  {
    if a == [] {
      assert a + b == b;
    } else {
      assert (a + b)[1..] == a[1..] + b;
      EncodeUriComponentConcat(a[1..], b);
    }
  }

  /** `decodeURIComponent` for text whose escapes are of ASCII bytes (`%00` to `%7F`).
      A `%` that does not start such an escape yields `None`; for a malformed escape
      the source throws a URIError, and escapes of bytes from `%80` up (multi-byte
      UTF-8) are not decoded by this model. */
  function DecodeUriComponent(s: string): (r: Option<string>)
    ensures r.Some? ==> |r.value| <= |s|
    decreases |s|
  {
    if s == [] then Some("")
    else if s[0] != '%' then
      var rest := DecodeUriComponent(s[1..]);
      if rest.Some? then Some([s[0]] + rest.value) else None
    else if 3 <= |s| && IsHexDigit(s[1]) && IsHexDigit(s[2]) && HexValue(s[1]) < 8 then
      var rest := DecodeUriComponent(s[3..]);
      if rest.Some? then Some([(HexValue(s[1]) * 16 + HexValue(s[2])) as char] + rest.value) else None
    else None
  }

  /** Text without `%` decodes to itself. */
  lemma {:induction false} DecodeWithoutEscapes(s: string)
    requires '%' !in s
    ensures DecodeUriComponent(s) == Some(s)
  {
    if s != [] {
      assert '%' !in s[1..];
      DecodeWithoutEscapes(s[1..]);
      assert s == [s[0]] + s[1..];
    }
  }

  predicate IsAscii(s: string)
  {
    forall i :: 0 <= i < |s| ==> s[i] as int < 0x80
  }

  /** Decoding one encoded ASCII character in front of any text. */
  lemma DecodeEncodedChar(c: char, t: string)
    requires c as int < 0x80
    ensures DecodeUriComponent(EncodeUriChar(c) + t)
         == if DecodeUriComponent(t).Some? then Some([c] + DecodeUriComponent(t).value) else None
  {
    var e := EncodeUriChar(c) + t;
    if IsUriUnreserved(c) {
      assert e[0] == c && e[1..] == t;
    } else {
      var n := c as int;
      assert Utf8(c) == [n];
      assert EncodeUriChar(c) == ['%', HexDigit(n / 16), HexDigit(n % 16)];
      assert e[3..] == t;
      assert (HexValue(e[1]) * 16 + HexValue(e[2])) as char == c;
    }
  }

  /** Decoding undoes `encodeURIComponent` on ASCII text. */
  lemma {:induction false} DecodeEncode(s: string)
    requires IsAscii(s)
    ensures DecodeUriComponent(EncodeUriComponent(s)) == Some(s)
  {
    if s != [] {
      assert IsAscii(s[1..]);
      DecodeEncode(s[1..]);
      DecodeEncodedChar(s[0], EncodeUriComponent(s[1..]));
      assert s == [s[0]] + s[1..];
    }
  }

  /** One query parameter: a name and a value. */
  type Param = (string, string)

  /** `ps[i]` is the first parameter named `name`. */
  predicate FirstNamed(ps: seq<Param>, name: string, i: int)
  {
    0 <= i < |ps| && ps[i].0 == name && forall j :: 0 <= j < i ==> ps[j].0 != name
  }

  /** `URLSearchParams.get`: the value of the first parameter with that name. */
  function GetParam(ps: seq<Param>, name: string): (r: Option<string>)
    ensures r.None? <==> forall i :: 0 <= i < |ps| ==> ps[i].0 != name
    ensures r.Some? ==> exists i :: FirstNamed(ps, name, i) && ps[i].1 == r.value
  {
    if ps == [] then None
    else if ps[0].0 == name then
      assert FirstNamed(ps, name, 0);
      Some(ps[0].1)
    else
      var r := GetParam(ps[1..], name);
      if r.Some? then
        var i :| FirstNamed(ps[1..], name, i) && ps[1..][i].1 == r.value;
        assert FirstNamed(ps, name, i + 1) && ps[i + 1].1 == r.value;
        r
      else r
  }

  predicate HasName(ps: seq<Param>, name: string)
  {
    exists i :: 0 <= i < |ps| && ps[i].0 == name
  }

  /** `URLSearchParams.set`: if a parameter with that name exists, the first one
      takes the new value and the later ones are removed; otherwise the pair is
      appended. */
  function SetParam(ps: seq<Param>, name: string, value: string): (r: seq<Param>)
    ensures !HasName(ps, name) ==> r == ps + [(name, value)]
  {
    if HasName(ps, name) then SetFirst(ps, name, value) else ps + [(name, value)]
  }

  function SetFirst(ps: seq<Param>, name: string, value: string): seq<Param>
  {
    if ps == [] then []
    else if ps[0].0 == name then [(name, value)] + RemoveName(ps[1..], name)
    else [ps[0]] + SetFirst(ps[1..], name, value)
  }

  function RemoveName(ps: seq<Param>, name: string): (r: seq<Param>)
    ensures forall i :: 0 <= i < |r| ==> r[i].0 != name
    ensures forall i :: 0 <= i < |r| ==> r[i] in ps
  {
    if ps == [] then []
    else if ps[0].0 == name then RemoveName(ps[1..], name)
    else [ps[0]] + RemoveName(ps[1..], name)
  }

  lemma {:induction false} GetRemoveName(ps: seq<Param>, name: string, other: string)
    requires other != name
    ensures GetParam(RemoveName(ps, name), other) == GetParam(ps, other)
  {
    if ps != [] {
      GetRemoveName(ps[1..], name, other);
    }
  }

  lemma {:induction false} GetSetFirst(ps: seq<Param>, name: string, value: string, other: string)
    requires HasName(ps, name)
    ensures GetParam(SetFirst(ps, name, value), name) == Some(value)
    ensures other != name ==> GetParam(SetFirst(ps, name, value), other) == GetParam(ps, other)
  {
    if ps[0].0 == name {
      if other != name {
        GetRemoveName(ps[1..], name, other);
      }
    } else {
      var i :| 0 <= i < |ps| && ps[i].0 == name;
      assert ps[1..][i - 1].0 == name;
      GetSetFirst(ps[1..], name, value, other);
    }
  }

  lemma {:induction false} GetAppend(ps: seq<Param>, p: Param, other: string)
    ensures GetParam(ps + [p], other) == if GetParam(ps, other).Some? then GetParam(ps, other)
                                          else if p.0 == other then Some(p.1) else None
  {
    if ps != [] {
      assert (ps + [p])[1..] == ps[1..] + [p];
      GetAppend(ps[1..], p, other);
    }
  }

  /** `get` on two lists one after the other finds the first list's value first. */
  lemma {:induction false} GetConcat(a: seq<Param>, b: seq<Param>, name: string)
    ensures GetParam(a + b, name) == if GetParam(a, name).Some? then GetParam(a, name) else GetParam(b, name)
  {
    if a == [] {
      assert a + b == b;
    } else {
      assert (a + b)[1..] == a[1..] + b;
      GetConcat(a[1..], b, name);
    }
  }

  /** After `set(name, value)`, `get(name)` is `value` and every other name reads as before. */
  lemma GetAfterSet(ps: seq<Param>, name: string, value: string, other: string)
    ensures GetParam(SetParam(ps, name, value), name) == Some(value)
    ensures other != name ==> GetParam(SetParam(ps, name, value), other) == GetParam(ps, other)
  {
    if HasName(ps, name) {
      GetSetFirst(ps, name, value, other);
    } else {
      GetAppend(ps, (name, value), name);
      GetAppend(ps, (name, value), other);
    }
  }

  /** The bytes the form-urlencoded serialiser leaves as they are. */
  predicate IsFormSafe(c: char)
  {
    IsAsciiAlnum(c) || c == '*' || c == '-' || c == '.' || c == '_'
  }

  /** The application/x-www-form-urlencoded byte serialiser: a space becomes `+`,
      safe bytes stay, every other UTF-8 byte becomes `%XY`. */
  function FormEncode(s: string): (r: string)
    ensures '&' !in r && '=' !in r
  {
    if s == [] then ""
    else
      var c := s[0];
      var head := if c == ' ' then "+" else if IsFormSafe(c) then [c] else PercentBytes(Utf8(c));
      PercentBytesReserved(if c == ' ' || IsFormSafe(c) then [] else Utf8(c));
      head + FormEncode(s[1..])
  }

  /** Escapes never contain the separators `&` and `=`. */
  lemma {:induction false} PercentBytesReserved(bytes: seq<nat>)
    requires forall k :: 0 <= k < |bytes| ==> bytes[k] < 256
    ensures '&' !in PercentBytes(bytes) && '=' !in PercentBytes(bytes)
  {
    if bytes != [] {
      PercentBytesReserved(bytes[1..]);
    }
  }

  /** `URLSearchParams.toString()`: `name=value` pairs joined by `&`. */
  function Serialize(ps: seq<Param>): (r: string)
    ensures r == "" <==> ps == []
  {
    if ps == [] then ""
    else
      var pair := FormEncode(ps[0].0) + "=" + FormEncode(ps[0].1);
      assert pair[|FormEncode(ps[0].0)|] == '=';
      if |ps| == 1 then pair else pair + "&" + Serialize(ps[1..])
  }
}
