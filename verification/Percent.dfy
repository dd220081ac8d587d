/** Percent-escaping of the parts of a URI (sip/uri.go). */
module Percent {
  import opened Wrappers

  type Byte = c: char | c as int < 256 witness 'a'

  type Bytes = seq<Byte>

  datatype Encoding = Path | PathSegment | Host | Zone | UserPassword | QueryComponent | Fragment

  datatype Error = BadEscape(text: Bytes) | BadHost(text: Bytes)

  predicate IsHex(c: Byte) {
    '0' <= c <= '9' || 'a' <= c <= 'f' || 'A' <= c <= 'F'
  }

  function Unhex(c: Byte): (v: nat)
    ensures v < 16
  {
    if '0' <= c <= '9' then c as int - '0' as int
    else if 'a' <= c <= 'f' then c as int - 'a' as int + 10
    else if 'A' <= c <= 'F' then c as int - 'A' as int + 10
    else 0
  }

  const UPPER_HEX: Bytes := "0123456789ABCDEF"

  predicate AlphaNumeric(c: Byte) {
    'a' <= c <= 'z' || 'A' <= c <= 'Z' || '0' <= c <= '9'
  }

  /** Sub-delimiters, and what else a host name may hold as it is. */
  predicate HostMark(c: Byte) {
    || c == '!' || c == '$' || c == '&' || c == '\'' || c == '(' || c == ')' || c == '*' || c == '+' || c == ','
    || c == ';' || c == '=' || c == ':' || c == '[' || c == ']' || c == '<' || c == '>' || c == '"'
  }

  predicate Reserved(c: Byte) {
    || c == '$' || c == '&' || c == '+' || c == ',' || c == '/' || c == ':' || c == ';' || c == '=' || c == '?' || c == '@'
  }

  predicate ShouldEscape(c: Byte, mode: Encoding) {
    if AlphaNumeric(c) then false
    else if (mode.Host? || mode.Zone?) && HostMark(c) then false
    else if c == '-' || c == '_' || c == '.' || c == '~' then false
    else if Reserved(c) && !mode.Host? && !mode.Zone? then
      (match mode
       case Path => c == '?'
       case PathSegment => c == '/' || c == ';' || c == ',' || c == '?'
       case UserPassword => c == '@' || c == '/' || c == '?' || c == ':'
       case QueryComponent => true
       case _ => false)
    else !(mode.Fragment? && (c == '!' || c == '(' || c == ')' || c == '*'))
  }

  // Definitions byte by byte

  function EscapeByte(c: Byte, mode: Encoding): Bytes {
    if c == ' ' && mode.QueryComponent? then "+"
    else if ShouldEscape(c, mode) then ['%', UPPER_HEX[c as int / 16], UPPER_HEX[c as int % 16]]
    else [c]
  }

  function Escape(s: Bytes, mode: Encoding): Bytes {
    if s == [] then [] else EscapeByte(s[0], mode) + Escape(s[1..], mode)
  }

  function Hex(s: Bytes): Byte
    requires |s| >= 3
  {
    (16 * Unhex(s[1]) + Unhex(s[2])) as char
  }

  /** What is wrong with the first byte, or the escape it starts. */
  function Fault(s: Bytes, mode: Encoding): Option<Error>
    requires s != []
  {
    if s[0] == '%' then
      if |s| < 3 || !IsHex(s[1]) || !IsHex(s[2]) then Some(BadEscape(if |s| > 3 then s[..3] else s))
      else if mode.Host? && Unhex(s[1]) < 8 && s[..3] != "%25" then Some(BadEscape(s[..3]))
      else if mode.Zone? && s[..3] != "%25" && Hex(s) != ' ' && ShouldEscape(Hex(s), Host) then Some(BadEscape(s[..3]))
      else None
    else if (mode.Host? || mode.Zone?) && s[0] != '+' && s[0] as int < 0x80 && ShouldEscape(s[0], mode) then Some(BadHost([s[0]]))
    else None
  }

  function Width(s: Bytes): (w: nat)
    requires s != []
  {
    if s[0] == '%' then 3 else 1
  }

  /** The byte that the first byte, or the escape it starts, stands for. */
  function Meaning(s: Bytes, mode: Encoding): Byte
    requires s != [] && |s| >= Width(s)
  {
    if s[0] == '%' then Hex(s) else if s[0] == '+' && mode.QueryComponent? then ' ' else s[0]
  }

  function Unescape(s: Bytes, mode: Encoding): Result<Bytes, Error> {
    if s == [] then Ok([])
    else if Fault(s, mode).Some? then Err(Fault(s, mode).value)
    else
      var rest := Unescape(s[Width(s)..], mode);
      if rest.Err? then rest else Ok([Meaning(s, mode)] + rest.value)
  }

  // What they mean to each other

  /** Whether a byte survives being escaped and unescaped. */
  predicate Survives(c: Byte, mode: Encoding) {
    match mode
    case Host => ShouldEscape(c, mode) ==> c as int >= 0x80 || c == '%'
    case Zone => ShouldEscape(c, mode) ==> c == ' ' || c == '%'
    case _ => true
  }

  lemma HexDigits(c: Byte)
    ensures var e: Bytes := ['%', UPPER_HEX[c as int / 16], UPPER_HEX[c as int % 16]];
            IsHex(e[1]) && IsHex(e[2]) && Unhex(e[1]) == c as int / 16 && Unhex(e[2]) == c as int % 16 && Hex(e) == c
            && (e == "%25" <==> c == '%')
  {
    DigitOf(c as int / 16);
    DigitOf(c as int % 16);
  }

  lemma DigitOf(d: nat)
    requires d < 16
    ensures IsHex(UPPER_HEX[d]) && Unhex(UPPER_HEX[d]) == d
  {
  }

  lemma Escapable(c: Byte, mode: Encoding)
    ensures ShouldEscape('%', mode)
    ensures ShouldEscape(c, Zone) <==> ShouldEscape(c, Host)
    ensures c == '+' ==> (ShouldEscape(c, mode) <==> mode.QueryComponent?)
    ensures c as int >= 0x80 || c == ' ' ==> ShouldEscape(c, mode)
  {
  }

  lemma ByteRoundTrip(c: Byte, t: Bytes, mode: Encoding)
    ensures var s := EscapeByte(c, mode) + t;
            if Survives(c, mode) then Fault(s, mode).None? && Width(s) == |EscapeByte(c, mode)| && s[Width(s)..] == t && Meaning(s, mode) == c
            else Fault(s, mode).Some?
  {
    hide ShouldEscape;
    HexDigits(c);
    Escapable(c, mode);
    var e := EscapeByte(c, mode);
    var s := e + t;
    assert s[|e|..] == t;
    if |e| == 3 {
      assert s[..3] == e && Hex(s) == Hex(e) && s[1] == e[1];
      assert Unhex(s[1]) < 8 <==> (c as int) < 0x80;
    }
  }

  /** Unescaping undoes escaping: for every string, but in a host name or a zone only when
      no byte is escaped that may not be. */
  lemma {:induction false} EscapeRoundTrip(s: Bytes, mode: Encoding)
    ensures Unescape(Escape(s, mode), mode) == Ok(s) <==> forall c :: c in s ==> Survives(c, mode)
    ensures !mode.Host? && !mode.Zone? ==> Unescape(Escape(s, mode), mode) == Ok(s)
  {
    if s != [] {
      EscapeRoundTrip(s[1..], mode);
      ByteRoundTrip(s[0], Escape(s[1..], mode), mode);
      assert s == [s[0]] + s[1..];
    }
  }

  // The loops

  lemma {:induction false} EscapeAppend(s: Bytes, t: Bytes, mode: Encoding)
    ensures Escape(s + t, mode) == Escape(s, mode) + Escape(t, mode)
  {
    hide EscapeByte;
    if s == [] {
      assert s + t == t;
    } else {
      EscapeAppend(s[1..], t, mode);
      assert (s + t)[1..] == s[1..] + t;
    }
  }

  lemma EscapeMore(s: Bytes, i: nat, mode: Encoding)
    requires i < |s|
    ensures Escape(s[..i+1], mode) == Escape(s[..i], mode) + EscapeByte(s[i], mode)
    ensures |Escape(s[..i+1], mode)| <= |Escape(s, mode)|
  {
    hide EscapeByte;
    assert s[..i+1] == s[..i] + [s[i]] && s == s[..i+1] + s[i+1..];
    EscapeAppend(s[..i], [s[i]], mode);
    EscapeAppend(s[..i+1], s[i+1..], mode);
    assert Escape([s[i]], mode) == EscapeByte(s[i], mode) + Escape([], mode);
  }

  /** `escape`: counts, takes a short cut if there is little to do, and otherwise fills a
      buffer whose length it has worked out. */
  method EscapeString(s: Bytes, mode: Encoding) returns (r: Bytes)
    ensures r == Escape(s, mode)
  {
    hide ShouldEscape, Escape, EscapeByte;
    var spaceCount, hexCount := CountEscapes(s, mode);
    if spaceCount == 0 && hexCount == 0 {
      return s;
    }
    var required := |s| + 2 * hexCount;
    var t := new Byte[required];
    if hexCount == 0 {
      FillSpaces(s, t);
    } else {
      FillEscaped(s, mode, t);
    }
    return t[..];
  }

  /** The bytes to be escaped, spaces of a query apart. */
  method CountEscapes(s: Bytes, mode: Encoding) returns (spaceCount: nat, hexCount: nat)
    ensures |Escape(s, mode)| == |s| + 2 * hexCount
    ensures hexCount == 0 ==> Escape(s, mode) == Spaced(s) || spaceCount == 0
    ensures spaceCount == 0 && hexCount == 0 ==> Escape(s, mode) == s
  {
    hide ShouldEscape, Escape, Spaced;
    spaceCount, hexCount := 0, 0;
    Escapable(' ', mode);
    EscapeNone(mode);
    assert s[..0] == [] && Spaced([]) == [];
    for i := 0 to |s|
      invariant |Escape(s[..i], mode)| == i + 2 * hexCount
      invariant !mode.QueryComponent? ==> spaceCount == 0
      invariant mode.QueryComponent? && hexCount == 0 ==> Escape(s[..i], mode) == Spaced(s[..i])
      invariant spaceCount == 0 && hexCount == 0 ==> Escape(s[..i], mode) == s[..i]
    {
      EscapeMore(s, i, mode);
      SpacedMore(s, i);
      var c := s[i];
      assert s[..i+1] == s[..i] + [c];
      if ShouldEscape(c, mode) {
        if c == ' ' && mode.QueryComponent? {
          spaceCount := spaceCount + 1;
        } else {
          hexCount := hexCount + 1;
        }
      }
    }
    assert s[..|s|] == s;
  }

  function Spaced(s: Bytes): (t: Bytes)
    ensures |t| == |s|
  {
    seq(|s|, i requires 0 <= i < |s| => if s[i] == ' ' then '+' else s[i])
  }

  lemma SpacedMore(s: Bytes, i: nat)
    requires i < |s|
    ensures Spaced(s[..i+1]) == Spaced(s[..i]) + [if s[i] == ' ' then '+' else s[i]]
  {
  }

  method FillSpaces(s: Bytes, t: array<Byte>)
    requires t.Length == |s|
    modifies t
    ensures t[..] == Spaced(s)
  {
    forall i | 0 <= i < |s| {
      t[i] := s[i];
    }
    for i := 0 to |s|
      invariant forall k :: 0 <= k < |s| ==> t[k] == if k < i && s[k] == ' ' then '+' else s[k]
    {
      if s[i] == ' ' {
        t[i] := '+';
      }
    }
  }

  method FillEscaped(s: Bytes, mode: Encoding, t: array<Byte>)
    requires t.Length == |Escape(s, mode)|
    modifies t
    ensures t[..] == Escape(s, mode)
  {
    hide ShouldEscape, Escape;
    var j: nat := 0;
    assert s[..0] == [] && Escape([], mode) == [] by { EscapeNone(mode); }
    for i := 0 to |s|
      invariant j <= t.Length && t[..j] == Escape(s[..i], mode)
    {
      EscapeMore(s, i, mode);
      var c := s[i];
      if c == ' ' && mode.QueryComponent? {
        t[j] := '+';
        j := j + 1;
      } else if ShouldEscape(c, mode) {
        t[j] := '%';
        t[j+1] := UPPER_HEX[c as int / 16];
        t[j+2] := UPPER_HEX[c as int % 16];
        j := j + 3;
      } else {
        t[j] := c;
        j := j + 1;
      }
    }
    assert s[..|s|] == s && t[..j] == t[..];
  }

  lemma EscapeNone(mode: Encoding)
    ensures Escape([], mode) == []
  {
  }

  function Prepend(done: Bytes, r: Result<Bytes, Error>): (p: Result<Bytes, Error>)
    ensures done == [] ==> p == r
    ensures r == Ok([]) ==> p == Ok(done)
  {
    assert r.Ok? ==> [] + r.value == r.value && (r.value == [] ==> done + r.value == done);
    if r.Ok? then Ok(done + r.value) else r
  }

  lemma UnescapeStep(s: Bytes, done: Bytes, i: nat, mode: Encoding)
    requires i < |s|
    ensures Fault(s[i..], mode).Some? ==> Unescape(s[i..], mode) == Err(Fault(s[i..], mode).value)
    ensures Fault(s[i..], mode).None? ==>
              && i + Width(s[i..]) <= |s|
              && Unescape(s[i..], mode) == Prepend([Meaning(s[i..], mode)], Unescape(s[i+Width(s[i..])..], mode))
              && Prepend(done, Unescape(s[i..], mode)) == Prepend(done + [Meaning(s[i..], mode)], Unescape(s[i+Width(s[i..])..], mode))
  {
    hide ShouldEscape, Hex;
    var rest := s[i..];
    if Fault(rest, mode).None? {
      assert rest[Width(rest)..] == s[i+Width(rest)..];
      var r := Unescape(s[i+Width(rest)..], mode);
      if r.Ok? {
        assert done + ([Meaning(rest, mode)] + r.value) == done + [Meaning(rest, mode)] + r.value;
      }
    }
  }

  lemma HexOf(s: Bytes, t: Bytes)
    requires |s| >= 3 && |t| >= 3 && s[..3] == t[..3]
    ensures Hex(s) == Hex(t)
  {
  }

  /** `unescape`: checks everything first, then builds the result in a buffer of the
      length it has counted. */
  method UnescapeString(s: Bytes, mode: Encoding) returns (r: Result<Bytes, Error>)
    ensures r == Unescape(s, mode)
  {
    hide ShouldEscape, Hex, Unescape;
    var n, hasPlus, fault := CountUnescapes(s, mode);
    if fault.Some? {
      return Err(fault.value);
    }
    if n == 0 && !hasPlus {
      return Ok(s);
    }
    var t := Replace(s, mode);
    assert |t| == |s| - 2 * n;
    return Ok(t);
  }

  /** The first fault, or else the number of escapes and whether a plus stands for a space. */
  method CountUnescapes(s: Bytes, mode: Encoding) returns (n: nat, hasPlus: bool, fault: Option<Error>)
    ensures fault.Some? ==> Unescape(s, mode) == Err(fault.value)
    ensures fault.None? ==> Unescape(s, mode).Ok? && |Unescape(s, mode).value| == |s| - 2 * n
    ensures fault.None? && n == 0 && !hasPlus ==> Unescape(s, mode).value == s
  {
    hide ShouldEscape, Hex, Unescape;
    n, hasPlus, fault := 0, false, None;
    var i: nat := 0;
    ghost var done: Bytes := [];
    assert s[0..] == s;
    while i < |s|
      invariant i <= |s|
      invariant Unescape(s, mode) == Prepend(done, Unescape(s[i..], mode))
      invariant |done| == i - 2 * n
      invariant hasPlus ==> mode.QueryComponent?
      invariant n == 0 && !hasPlus ==> done == s[..i]
    {
      UnescapeStep(s, done, i, mode);
      assert s[..i+1] == s[..i] + [s[i]];
      done := done + [if Fault(s[i..], mode).None? then Meaning(s[i..], mode) else s[i]];
      if s[i] == '%' {
        n := n + 1;
        if i + 2 >= |s| || !IsHex(s[i+1]) || !IsHex(s[i+2]) {
          var text := s[i..];
          if |text| > 3 {
            text := text[..3];
          }
          return n, hasPlus, Some(BadEscape(text));
        }
        assert s[i..][..3] == s[i..i+3];
        if mode.Host? && Unhex(s[i+1]) < 8 && s[i..i+3] != "%25" {
          return n, hasPlus, Some(BadEscape(s[i..i+3]));
        }
        if mode.Zone? {
          var v := Hex(s[i..i+3]);
          HexOf(s[i..], s[i..i+3]);
          if s[i..i+3] != "%25" && v != ' ' && ShouldEscape(v, Host) {
            return n, hasPlus, Some(BadEscape(s[i..i+3]));
          }
        }
        i := i + 3;
      } else if s[i] == '+' {
        hasPlus := mode.QueryComponent?;
        i := i + 1;
      } else {
        if (mode.Host? || mode.Zone?) && s[i] as int < 0x80 && ShouldEscape(s[i], mode) {
          assert s[i..i+1] == [s[i]];
          return n, hasPlus, Some(BadHost(s[i..i+1]));
        }
        i := i + 1;
      }
    }
    assert s[i..] == [];
    UnescapeNone(mode);
  }

  lemma UnescapeNone(mode: Encoding)
    ensures Unescape([], mode) == Ok([])
  {
  }

  method Replace(s: Bytes, mode: Encoding) returns (t: Bytes)
    requires Unescape(s, mode).Ok?
    ensures Unescape(s, mode) == Ok(t)
  {
    hide ShouldEscape, Hex, Unescape;
    t := [];
    var i: nat := 0;
    assert s[0..] == s && [] + t == t;
    while i < |s|
      invariant i <= |s| && Unescape(s, mode) == Prepend(t, Unescape(s[i..], mode))
    {
      UnescapeStep(s, t, i, mode);
      if s[i] == '%' {
        assert s[i..][..3] == s[i..i+3];
        HexOf(s[i..], s[i..i+3]);
        t := t + [Hex(s[i..i+3])];
        i := i + 2;
      } else if s[i] == '+' {
        t := t + [if mode.QueryComponent? then ' ' else '+'];
      } else {
        t := t + [s[i]];
      }
      i := i + 1;
    }
    assert s[i..] == [];
    UnescapeNone(mode);
  }
}
