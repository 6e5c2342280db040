/** File paths as `file:` URIs and back, on the side that is not Windows (src/protocol.rs).
    A path is a string of Unicode scalar values; the libraries' UTF-8 and percent coding are
    written out. */
module FileUri {
  import opened Wrappers
  import opened Text

  // ---- UTF-8 ------------------------------------------------------------------------

  function CharBytes(c: char): seq<Byte> {
    var n := c as int;
    if n < 0x80 then [n]
    else if n < 0x800 then [0xC0 + n / 64, 0x80 + n % 64]
    else if n < 0x1_0000 then [0xE0 + n / 4096, 0x80 + n / 64 % 64, 0x80 + n % 64]
    else [0xF0 + n / 26_2144, 0x80 + n / 4096 % 64, 0x80 + n / 64 % 64, 0x80 + n % 64]
  }

  function Utf8(s: string): seq<Byte> {
    if s == [] then [] else CharBytes(s[0]) + Utf8(s[1..])
  }

  predicate Continues(b: Byte) {
    0x80 <= b < 0xC0
  }

  /** A scalar value of at least `least`: no overlong form, no surrogate, nothing above
      U+10FFFF. */
  function Scalar(n: int, least: int): Option<char>
    requires least >= 0
  {
    if n < least || 0xD800 <= n < 0xE000 || n >= 0x11_0000 then None else Some(n as char)
  }

  /** The scalar value a two-, three- or four-byte sequence spells, if it is well formed. */
  function Spelled(b: seq<Byte>): Option<char> {
    if |b| == 2 && 0xC0 <= b[0] < 0xE0 && Continues(b[1]) then
      Scalar((b[0] as int - 0xC0) * 64 + (b[1] as int - 0x80), 0x80)
    else if |b| == 3 && 0xE0 <= b[0] < 0xF0 && Continues(b[1]) && Continues(b[2]) then
      Scalar((b[0] as int - 0xE0) * 4096 + (b[1] as int - 0x80) * 64 + (b[2] as int - 0x80), 0x800)
    else if |b| == 4 && 0xF0 <= b[0] < 0xF8 && Continues(b[1]) && Continues(b[2]) && Continues(b[3]) then
      Scalar((b[0] as int - 0xF0) * 26_2144 + (b[1] as int - 0x80) * 4096
             + (b[2] as int - 0x80) * 64 + (b[3] as int - 0x80), 0x1_0000)
    else None
  }

  /** How many bytes the leading byte announces. */
  function Width(b: Byte): nat {
    if b < 0x80 then 1 else if b < 0xE0 then 2 else if b < 0xF0 then 3 else 4
  }

  /** The string the bytes encode; None when they are not UTF-8. */
  function FromUtf8(b: seq<Byte>): Option<string>
    decreases |b|
  {
    if b == [] then Some("")
    else
      var w := Width(b[0]);
      if |b| < w then None
      else
        var c := if w == 1 then Some(b[0] as char) else Spelled(b[..w]);
        var rest := FromUtf8(b[w..]);
        if c.None? || rest.None? then None else Some([c.value] + rest.value)
  }

  /** Base-64 digits and back. */
  lemma Base64(n: int)
    requires 0 <= n < 0x11_0000
    ensures n == n / 64 * 64 + n % 64
    ensures n == n / 4096 * 4096 + n / 64 % 64 * 64 + n % 64
    ensures n == n / 26_2144 * 26_2144 + n / 4096 % 64 * 4096 + n / 64 % 64 * 64 + n % 64
  {
    assert n / 64 / 64 == n / 4096;
    assert n / 4096 / 64 == n / 26_2144;
  }

  lemma CharBytesSpell(c: char)
    ensures var b := CharBytes(c);
            |b| == Width(b[0]) && (|b| == 1 ==> b[0] == c as int) && (|b| > 1 ==> Spelled(b) == Some(c))
  {
    Base64(c as int);
  }

  lemma {:induction false} Utf8RoundTrip(s: string)
    ensures FromUtf8(Utf8(s)) == Some(s)
  {
    if s != [] {
      CharBytesSpell(s[0]);
      Utf8RoundTrip(s[1..]);
      var b := CharBytes(s[0]);
      assert (b + Utf8(s[1..]))[..|b|] == b && (b + Utf8(s[1..]))[|b|..] == Utf8(s[1..]);
      assert [s[0]] + s[1..] == s;
    }
  }

  lemma Digits64(n: int, a: int, b: int, c: int, d: int)
    requires n == a * 26_2144 + b * 4096 + c * 64 + d && 0 <= a && 0 <= b < 64 && 0 <= c < 64 && 0 <= d < 64
    ensures n % 64 == d && n / 64 % 64 == c && n / 4096 % 64 == b && n / 26_2144 == a
  {
    assert n / 64 == a * 4096 + b * 64 + c;
    assert n / 4096 == a * 64 + b;
  }

  lemma SpelledIsCharBytes(b: seq<Byte>)
    requires Spelled(b).Some?
    ensures CharBytes(Spelled(b).value) == b
  {
    var n := Spelled(b).value as int;
    if |b| == 2 {
      Digits64(n, 0, 0, b[0] as int - 0xC0, b[1] as int - 0x80);
    } else if |b| == 3 {
      Digits64(n, 0, b[0] as int - 0xE0, b[1] as int - 0x80, b[2] as int - 0x80);
    } else {
      Digits64(n, b[0] as int - 0xF0, b[1] as int - 0x80, b[2] as int - 0x80, b[3] as int - 0x80);
    }
  }

  lemma FirstIsCharBytes(b: seq<Byte>, s: string)
    requires b != [] && FromUtf8(b) == Some(s)
    ensures s != [] && |CharBytes(s[0])| <= |b| && b[..|CharBytes(s[0])|] == CharBytes(s[0])
    ensures FromUtf8(b[|CharBytes(s[0])|..]) == Some(s[1..])
  {
    var w := Width(b[0]);
    if w > 1 {
      SpelledIsCharBytes(b[..w]);
    } else {
      assert b[..1] == [b[0]];
    }
  }

  lemma {:induction false} EncodingOf(b: seq<Byte>, s: string)
    requires FromUtf8(b) == Some(s)
    ensures Utf8(s) == b
    decreases |b|
  {
    if b != [] {
      FirstIsCharBytes(b, s);
      var head := CharBytes(s[0]);
      EncodingOf(b[|head|..], s[1..]);
      assert b == head + b[|head|..];
    }
  }

  /** The decoder accepts nothing but encodings. */
  lemma OnlyEncodingsDecode(b: seq<Byte>)
    ensures FromUtf8(b).Some? ==> Utf8(FromUtf8(b).value) == b
  {
    if FromUtf8(b).Some? {
      EncodingOf(b, FromUtf8(b).value);
    }
  }

  // ---- percent coding -----------------------------------------------------------------

  /** The ASCII characters `PATH_SEGMENT` escapes: the controls and the listed ones. */
  predicate InPathSegmentSet(b: Byte) {
    b < 0x20 || b == 0x7F || (b < 0x80 && b as char in " \"#%<>?`{}[]^|\\")
  }

  predicate Escaped(b: Byte) {
    b >= 0x80 || InPathSegmentSet(b)
  }

  function HexDigit(n: int): char
    requires 0 <= n < 16
  {
    "0123456789ABCDEF"[n]
  }

  function HexValue(b: Byte): (r: Option<int>)
    ensures r.Some? ==> 0 <= r.value < 16
  {
    if 0x30 <= b <= 0x39 then Some(b - 0x30)
    else if 0x41 <= b <= 0x46 then Some(b - 0x41 + 10)
    else if 0x61 <= b <= 0x66 then Some(b - 0x61 + 10)
    else None
  }

  function EscapeByte(b: Byte): string {
    if Escaped(b) then ['%', HexDigit(b / 16), HexDigit(b % 16)] else [b as char]
  }

  function Escape(b: seq<Byte>): string {
    if b == [] then "" else EscapeByte(b[0]) + Escape(b[1..])
  }

  /** `percent_decode`: a `%` with two hex digits behind it is a byte; any other byte is
      itself. */
  function PercentDecode(b: seq<Byte>): seq<Byte>
    decreases |b|
  {
    if b == [] then []
    else if b[0] == 0x25 && |b| >= 3 && HexValue(b[1]).Some? && HexValue(b[2]).Some? then
      [HexValue(b[1]).value * 16 + HexValue(b[2]).value] + PercentDecode(b[3..])
    else [b[0]] + PercentDecode(b[1..])
  }

  /** A hex digit is read in either case. */
  lemma HexValueMeans(b: Byte, v: int)
    requires 0 <= v < 16
    ensures HexValue(b) == Some(v) <==> SameLetter(b as char, "0123456789abcdef"[v])
  {
    assert "0123456789abcdef"[v] as int == if v < 10 then 0x30 + v else 0x61 + v - 10;
  }

  /** Escapes are read whoever wrote them; a `%` without two hex digits behind it stands for
      itself, as every other byte does. */
  lemma {:induction false} EscapesDecode(high: Byte, low: Byte, rest: seq<Byte>)
    ensures HexValue(high).Some? && HexValue(low).Some? ==>
              PercentDecode([0x25, high, low] + rest) ==
                [HexValue(high).value * 16 + HexValue(low).value] + PercentDecode(rest)
    ensures HexValue(high).None? || HexValue(low).None? ==>
              PercentDecode([0x25, high, low] + rest) == [0x25] + PercentDecode([high, low] + rest)
  {
    var b := [0x25, high, low] + rest;
    assert b[3..] == rest && b[1..] == [high, low] + rest;
  }

  lemma {:induction false} PlainBytesDecode(b: Byte, rest: seq<Byte>)
    requires b != 0x25 || |rest| < 2
    ensures PercentDecode([b] + rest) == [b] + PercentDecode(rest)
  {
    assert ([b] + rest)[1..] == rest;
  }

  // ---- the two conversions -------------------------------------------------------------

  function Join(parts: seq<string>): string {
    if parts == [] then "" else if |parts| == 1 then parts[0] else parts[0] + "/" + Join(parts[1..])
  }

  function EncodeSegment(segment: string): string {
    Escape(Utf8(segment))
  }

  function EncodeAll(parts: seq<string>): seq<string> {
    seq(|parts|, i requires 0 <= i < |parts| => EncodeSegment(parts[i]))
  }

  const SCHEME := "file://"

  const UNKNOWN := "/unknown"

  /** The string `path_to_uri` hands to the URI parser. */
  function UriString(path: string): string {
    SCHEME + Join(EncodeAll(Split(path, '/')))
  }

  /** `path_to_uri`; `accepts` says which strings the URI parser takes. */
  function PathToUri(path: string, accepts: string -> bool): string {
    if accepts(UriString(path)) then UriString(path) else SCHEME + UNKNOWN
  }

  /** `uri_to_path`; `lossy` is what the decoder substitutes for bytes that are not UTF-8. */
  function UriToPath(uri: string, lossy: seq<Byte> -> string): Option<string> {
    if "file:///" <= uri then
      var bytes := PercentDecode(Utf8(uri[|SCHEME|..]));
      var path := FromUtf8(bytes);
      Some(if path.Some? then path.value else lossy(bytes))
    else None
  }

  // ---- the round trip -------------------------------------------------------------------

  lemma {:induction false} Utf8Concat(a: string, b: string)
    ensures Utf8(a + b) == Utf8(a) + Utf8(b)
  {
    if a == [] {
      assert a + b == b;
    } else {
      assert (a + b)[1..] == a[1..] + b;
      Utf8Concat(a[1..], b);
    }
  }

  lemma {:induction false} EscapeConcat(a: seq<Byte>, b: seq<Byte>)
    ensures Escape(a + b) == Escape(a) + Escape(b)
  {
    if a == [] {
      assert a + b == b;
    } else {
      assert (a + b)[1..] == a[1..] + b;
      EscapeConcat(a[1..], b);
    }
  }

  lemma EncodeConcat(a: string, b: string)
    ensures EncodeSegment(a + b) == EncodeSegment(a) + EncodeSegment(b)
  {
    Utf8Concat(a, b);
    EscapeConcat(Utf8(a), Utf8(b));
  }

  lemma SlashIsItself()
    ensures EncodeSegment("/") == "/"
  {
    assert Utf8("/") == [0x2F] + Utf8("/"[1..]);
    assert Escape([0x2F]) == EscapeByte(0x2F) + Escape([0x2F][1..]);
  }

  lemma JoinCons(first: string, rest: seq<string>)
    requires rest != []
    ensures Join([first] + rest) == first + "/" + Join(rest)
  {
    assert ([first] + rest)[1..] == rest;
  }

  lemma JoinLonger(prefix: string, first: string, rest: seq<string>)
    ensures Join([prefix + first] + rest) == prefix + Join([first] + rest)
  {
    if rest != [] {
      JoinCons(prefix + first, rest);
      JoinCons(first, rest);
    }
  }

  lemma EncodeAllCons(first: string, rest: seq<string>)
    ensures EncodeAll([first] + rest) == [EncodeSegment(first)] + EncodeAll(rest)
  {
  }

  /** Encoding segment by segment is encoding the whole path: `/` is never escaped. */
  lemma {:induction false} SegmentwiseIsWhole(path: string)
    ensures Join(EncodeAll(Split(path, '/'))) == EncodeSegment(path)
  {
    if path == [] {
      assert EncodeAll(Split(path, '/')) == [EncodeSegment("")];
    } else {
      SegmentwiseIsWhole(path[1..]);
      var rest := Split(path[1..], '/');
      assert path == [path[0]] + path[1..];
      EncodeConcat([path[0]], path[1..]);
      if path[0] == '/' {
        SlashIsItself();
        EncodeAllCons("", rest);
        JoinCons("", EncodeAll(rest));
        assert EncodeSegment("") == "";
        assert [path[0]] == "/";
      } else {
        EncodeAllCons(rest[0], rest[1..]);
        EncodeAllCons([path[0]] + rest[0], rest[1..]);
        EncodeConcat([path[0]], rest[0]);
        JoinLonger(EncodeSegment([path[0]]), EncodeSegment(rest[0]), EncodeAll(rest[1..]));
        assert rest == [rest[0]] + rest[1..];
      }
    }
  }

  /** An escaped string is ASCII, so its bytes are its characters. */
  function Ascii(s: string): (b: seq<Byte>)
    requires forall c :: c in s ==> c as int < 0x80
    ensures |b| == |s| && forall i :: 0 <= i < |s| ==> b[i] == s[i] as int
  {
    assert forall i :: 0 <= i < |s| ==> s[i] in s;
    seq(|s|, i requires 0 <= i < |s| => Code(s[i]))
  }

  function Code(c: char): Byte {
    if c as int < 0x80 then c as int else 0
  }

  lemma {:induction false} AsciiUtf8(s: string)
    requires forall c :: c in s ==> c as int < 0x80
    ensures Utf8(s) == Ascii(s)
  {
    if s != [] {
      assert forall c :: c in s[1..] ==> c in s;
      AsciiUtf8(s[1..]);
      assert s[0] in s && CharBytes(s[0]) == [s[0] as int];
      assert Ascii(s)[1..] == Ascii(s[1..]);
    }
  }

  lemma {:induction false} EscapeIsAscii(b: seq<Byte>)
    ensures forall c :: c in Escape(b) ==> c as int < 0x80
  {
    if b != [] {
      EscapeIsAscii(b[1..]);
      EscapeByteIsAscii(b[0]);
    }
  }

  lemma EscapeByteIsAscii(b: Byte)
    ensures forall c :: c in EscapeByte(b) ==> c as int < 0x80
  {
    HexDigits(b / 16);
    HexDigits(b % 16);
  }

  lemma HexDigits(n: int)
    requires 0 <= n < 16
    ensures HexDigit(n) as int < 0x80 && HexValue(HexDigit(n) as int) == Some(n)
  {
  }

  lemma DecodeOne(b: Byte, tail: seq<Byte>)
    requires forall c :: c in EscapeByte(b) ==> c as int < 0x80
    ensures PercentDecode(Ascii(EscapeByte(b)) + tail) == [b] + PercentDecode(tail)
  {
    HexDigits(b / 16);
    HexDigits(b % 16);
    var head := Ascii(EscapeByte(b));
    assert (head + tail)[|head|..] == tail;
    assert b == b / 16 * 16 + b % 16;
  }

  lemma {:induction false} DecodeEscaped(b: seq<Byte>)
    requires forall c :: c in Escape(b) ==> c as int < 0x80
    ensures PercentDecode(Ascii(Escape(b))) == b
  {
    if b != [] {
      EscapeIsAscii(b[1..]);
      DecodeEscaped(b[1..]);
      EscapeByteIsAscii(b[0]);
      assert Ascii(Escape(b)) == Ascii(EscapeByte(b[0])) + Ascii(Escape(b[1..]));
      DecodeOne(b[0], Ascii(Escape(b[1..])));
      assert b == [b[0]] + b[1..];
    }
  }

  lemma EncodedDecodes(path: string)
    ensures PercentDecode(Utf8(EncodeSegment(path))) == Utf8(path)
  {
    EscapeIsAscii(Utf8(path));
    AsciiUtf8(EncodeSegment(path));
    DecodeEscaped(Utf8(path));
  }

  lemma UriIsEncoded(path: string)
    ensures UriString(path) == SCHEME + EncodeSegment(path)
  {
    SegmentwiseIsWhole(path);
  }

  lemma PrefixSlash(rest: string)
    ensures "file:///" <= SCHEME + rest <==> rest != "" && rest[0] == '/'
  {
    assert "file:///" == SCHEME + "/";
    if rest != "" {
      assert (SCHEME + rest)[..8] == SCHEME + [rest[0]];
      assert (SCHEME + rest)[7] == rest[0] && "file:///"[7] == '/';
    }
  }

  lemma StartsWithSlash(path: string)
    ensures "file:///" <= UriString(path) <==> path != [] && path[0] == '/'
  {
    UriIsEncoded(path);
    PrefixSlash(EncodeSegment(path));
    if path != [] {
      assert path == [path[0]] + path[1..];
      EncodeConcat([path[0]], path[1..]);
      FirstCharacter(path[0]);
    }
  }

  lemma FirstCharacter(c: char)
    ensures EncodeSegment([c]) != "" && (EncodeSegment([c])[0] == '/' <==> c == '/')
  {
    assert Utf8([c]) == CharBytes(c) + Utf8([]);
    assert Utf8([c]) == CharBytes(c);
  }

  // ---- what the URI holds ------------------------------------------------------------------

  /** `pchar` without escapes, section 3.3 of RFC 3986. */
  predicate IsPchar(c: char) {
    'a' <= c <= 'z' || 'A' <= c <= 'Z' || '0' <= c <= '9' || c in "-._~" || c in "!$&'()*+,;=" || c in ":@"
  }

  predicate IsHex(c: char) {
    '0' <= c <= '9' || 'A' <= c <= 'F'
  }

  /** `/`, `pchar` and `%` escapes of two upper-case hex digits (section 2.1), and nothing else. */
  predicate IsUriPath(s: string) {
    s == [] ||
    (if s[0] == '%' then |s| >= 3 && IsHex(s[1]) && IsHex(s[2]) && IsUriPath(s[3..])
     else (s[0] == '/' || IsPchar(s[0])) && IsUriPath(s[1..]))
  }

  /** The escape set is the complement of `pchar` and `/`. */
  lemma EscapedExactlyWhenNotPchar(b: Byte)
    requires b < 0x80
    ensures Escaped(b) <==> b as char != '/' && !IsPchar(b as char)
  {
  }

  lemma {:induction false} EscapeIsUriPath(b: seq<Byte>)
    ensures IsUriPath(Escape(b))
  {
    if b != [] {
      EscapeIsUriPath(b[1..]);
      var tail := Escape(b[1..]);
      if Escaped(b[0]) {
        assert Escape(b)[3..] == tail;
      } else {
        EscapedExactlyWhenNotPchar(b[0]);
        assert Escape(b)[1..] == tail;
      }
    }
  }

  // ---- the main result ---------------------------------------------------------------------

  /** The parser takes every `file:` URI whose path is absolute and well formed. */
  ghost predicate TakesFileUris(accepts: string -> bool) {
    forall rest :: rest != "" && rest[0] == '/' && IsUriPath(rest) ==> accepts(SCHEME + rest)
  }

  /** Behind the scheme, the URI of any path is a path of RFC 3986; the parser takes it when
      the path is absolute. */
  lemma UriIsWellFormed(path: string, accepts: string -> bool)
    requires TakesFileUris(accepts)
    ensures SCHEME <= PathToUri(path, accepts) && IsUriPath(PathToUri(path, accepts)[|SCHEME|..])
    ensures path != [] && path[0] == '/' ==> PathToUri(path, accepts) == UriString(path)
  {
    UriIsEncoded(path);
    StartsWithSlash(path);
    EscapeIsUriPath(Utf8(path));
    PrefixSlash(EncodeSegment(path));
    FallbackIsAPath();
    assert UriString(path)[|SCHEME|..] == EncodeSegment(path) && (SCHEME + UNKNOWN)[|SCHEME|..] == UNKNOWN;
  }

  lemma {:induction false} PlainIsItself(s: string)
    requires forall c :: c in s ==> c as int < 0x80 && !Escaped(c as int)
    ensures EncodeSegment(s) == s
  {
    if s != [] {
      assert s[0] in s && forall c :: c in s[1..] ==> c in s;
      PlainIsItself(s[1..]);
      assert s == [s[0]] + s[1..];
      EncodeConcat([s[0]], s[1..]);
      assert Utf8([s[0]]) == CharBytes(s[0]) + Utf8([]) == [s[0] as int];
      assert Escape([s[0] as int]) == EscapeByte(s[0] as int) + Escape([]);
    }
  }

  lemma PlainPath(s: string)
    requires forall c :: c in s ==> c as int < 0x80 && !Escaped(c as int)
    ensures UriString(s) == SCHEME + s && IsUriPath(s)
  {
    PlainIsItself(s);
    UriIsEncoded(s);
    EscapeIsUriPath(Utf8(s));
  }

  lemma FallbackIsAPath()
    ensures SCHEME + UNKNOWN == UriString(UNKNOWN) && IsUriPath(UNKNOWN)
  {
    PlainPath(UNKNOWN);
  }

  lemma AbsoluteComesBack(path: string, lossy: seq<Byte> -> string)
    ensures UriToPath(UriString(path), lossy) == if path != [] && path[0] == '/' then Some(path) else None
  {
    StartsWithSlash(path);
    UriIsEncoded(path);
    EncodedDecodes(path);
    Utf8RoundTrip(path);
    assert UriString(path)[|SCHEME|..] == EncodeSegment(path);
  }

  /** Main result: the conversion comes back exactly for the absolute paths. Any other path
      comes back as none when the parser takes its URI, and else as that of the fallback. */
  lemma RoundTripExactlyForAbsolute(path: string, accepts: string -> bool, lossy: seq<Byte> -> string)
    requires TakesFileUris(accepts)
    ensures UriToPath(PathToUri(path, accepts), lossy) == Some(path) <==> path != [] && path[0] == '/'
    ensures path == [] || path[0] != '/' ==>
              UriToPath(PathToUri(path, accepts), lossy) ==
              if accepts(UriString(path)) then None else Some("/unknown")
  {
    UriIsWellFormed(path, accepts);
    FallbackIsAPath();
    AbsoluteComesBack(path, lossy);
    AbsoluteComesBack(UNKNOWN, lossy);
  }
}
