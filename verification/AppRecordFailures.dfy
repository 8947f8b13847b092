/** The identifiers of failed records (lib/app-directory-failures.ts): unpadded base64url, sections 4 and 5 of RFC
    4648, read back by the forgiving decoder of the web platform. */
module AppRecordFailures {
  import opened Wrappers
  import opened Text

  type Sextet = v: int | 0 <= v < 64
  type Byte = b: int | 0 <= b < 256

  // ---------------------------------------------------------------- alphabets

  function StdChar(v: Sextet): char {
    if v < 26 then ('A' as int + v) as char
    else if v < 52 then ('a' as int + v - 26) as char
    else if v < 62 then ('0' as int + v - 52) as char
    else if v == 62 then '+' else '/'
  }

  function UrlChar(v: Sextet): char {
    if v == 62 then '-' else if v == 63 then '_' else StdChar(v)
  }

  function StdValue(c: char): Option<Sextet> {
    if 'A' <= c <= 'Z' then Some(c as int - 'A' as int)
    else if 'a' <= c <= 'z' then Some(c as int - 'a' as int + 26)
    else if '0' <= c <= '9' then Some(c as int - '0' as int + 52)
    else if c == '+' then Some(62)
    else if c == '/' then Some(63)
    else None
  }

  const CAPITALS := "ABCDEFGHIJKLMNOPQRSTUVWXYZ"
  const SMALLS := "abcdefghijklmnopqrstuvwxyz"
  const DIGITS := "0123456789"

  /** Tables 1 and 2 of RFC 4648. */
  lemma AlphabetsAreTheTables(v: Sextet)
    ensures |CAPITALS + SMALLS + DIGITS + "+/"| == |CAPITALS + SMALLS + DIGITS + "-_"| == 64
    ensures StdChar(v) == (CAPITALS + SMALLS + DIGITS + "+/")[v]
    ensures UrlChar(v) == (CAPITALS + SMALLS + DIGITS + "-_")[v]
  {
    if v < 26 { assert StdChar(v) == CAPITALS[v]; }
    else if v < 52 { assert StdChar(v) == SMALLS[v - 26]; }
    else if v < 62 { assert StdChar(v) == DIGITS[v - 52]; }
  }

  function Std(v: seq<Sextet>): string { seq(|v|, i requires 0 <= i < |v| => StdChar(v[i])) }
  function Url(v: seq<Sextet>): string { seq(|v|, i requires 0 <= i < |v| => UrlChar(v[i])) }

  // ---------------------------------------------------------------- groups of 24 bits

  function S0(a: Byte): Sextet { a / 4 }
  function S1(a: Byte, b: Byte): Sextet { a % 4 * 16 + b / 16 }
  function S2(b: Byte, c: Byte): Sextet { b % 16 * 4 + c / 64 }
  function S3(c: Byte): Sextet { c % 64 }

  function B0(p: int, q: int): Byte
    requires 0 <= p < 64 && 0 <= q < 64
  {
    p * 4 + q / 16
  }

  function B1(q: int, r: int): Byte
    requires 0 <= q < 64 && 0 <= r < 64
  {
    q % 16 * 16 + r / 4
  }

  function B2(r: int, s: int): Byte
    requires 0 <= r < 64 && 0 <= s < 64
  {
    r % 4 * 64 + s
  }

  /** Four sextets for three bytes, padded with zero bits at the end. */
  function Sextets(b: seq<Byte>): seq<Sextet> {
    if |b| == 0 then []
    else if |b| == 1 then [S0(b[0]), S1(b[0], 0)]
    else if |b| == 2 then [S0(b[0]), S1(b[0], b[1]), S2(b[1], 0)]
    else [S0(b[0]), S1(b[0], b[1]), S2(b[1], b[2]), S3(b[2])] + Sextets(b[3..])
  }

  /** The whole bytes; the bits left over at the end are dropped. */
  function Bytes(v: seq<Sextet>): seq<Byte> {
    if |v| <= 1 then []
    else if |v| == 2 then [B0(v[0], v[1])]
    else if |v| == 3 then [B0(v[0], v[1]), B1(v[1], v[2])]
    else [B0(v[0], v[1]), B1(v[1], v[2]), B2(v[2], v[3])] + Bytes(v[4..])
  }

  /** The dropped bits of a last group of two or three sextets are zero. */
  predicate NoSpareBits(v: seq<Sextet>) {
    if |v| >= 4 then NoSpareBits(v[4..])
    else if |v| == 3 then v[2] % 4 == 0
    else if |v| == 2 then v[1] % 16 == 0
    else true
  }

  lemma ByteGroup(a: Byte, b: Byte, c: Byte)
    ensures B0(S0(a), S1(a, b)) == a && B1(S1(a, b), S2(b, c)) == b && B2(S2(b, c), S3(c)) == c
    ensures S1(a, 0) % 16 == 0 && S2(b, 0) % 4 == 0
  {
  }

  lemma SextetGroup(p: Sextet, q: Sextet, r: Sextet, s: Sextet)
    ensures S0(B0(p, q)) == p && S1(B0(p, q), B1(q, r)) == q && S2(B1(q, r), B2(r, s)) == r && S3(B2(r, s)) == s
    ensures q % 16 == 0 ==> S1(B0(p, q), 0) == q
    ensures r % 4 == 0 ==> S2(B1(q, r), 0) == r
  {
  }

  lemma BytesCons(g: seq<Sextet>, rest: seq<Sextet>)
    requires |g| == 4
    ensures Bytes(g + rest) == [B0(g[0], g[1]), B1(g[1], g[2]), B2(g[2], g[3])] + Bytes(rest)
    ensures NoSpareBits(g + rest) == NoSpareBits(rest)
  {
    assert (g + rest)[4..] == rest;
  }

  lemma SextetsCons(g: seq<Byte>, rest: seq<Byte>)
    requires |g| == 3
    ensures Sextets(g + rest) == [S0(g[0]), S1(g[0], g[1]), S2(g[1], g[2]), S3(g[2])] + Sextets(rest)
  {
    assert (g + rest)[3..] == rest;
  }

  lemma BytesOfTwo(p: Sextet, q: Sextet)
    ensures Bytes([p, q]) == [B0(p, q)] && (NoSpareBits([p, q]) <==> q % 16 == 0)
  {
  }

  lemma SextetsOfOne(a: Byte)
    ensures Sextets([a]) == [S0(a), S1(a, 0)]
  {
  }

  lemma OneByte(a: Byte)
    ensures Bytes(Sextets([a])) == [a] && NoSpareBits(Sextets([a]))
  {
    ByteGroup(a, 0, 0);
    BytesOfTwo(S0(a), S1(a, 0));
  }

  lemma TwoBytes(a: Byte, b: Byte)
    ensures Bytes(Sextets([a, b])) == [a, b] && NoSpareBits(Sextets([a, b]))
  {
    ByteGroup(a, b, 0);
    assert Sextets([a, b]) == [S0(a), S1(a, b), S2(b, 0)];
  }

  lemma TwoSextets(p: Sextet, q: Sextet)
    requires q % 16 == 0
    ensures Sextets(Bytes([p, q])) == [p, q]
  {
    SextetGroup(p, q, 0, 0);
    BytesOfTwo(p, q);
    SextetsOfOne(B0(p, q));
  }

  lemma ThreeSextets(p: Sextet, q: Sextet, r: Sextet)
    requires r % 4 == 0
    ensures Sextets(Bytes([p, q, r])) == [p, q, r]
  {
    SextetGroup(p, q, r, 0);
    assert Bytes([p, q, r]) == [B0(p, q), B1(q, r)];
  }

  lemma ShortSextets(v: seq<Sextet>)
    requires |v| < 4 && |v| != 1 && NoSpareBits(v)
    ensures Sextets(Bytes(v)) == v
  {
    if |v| == 2 {
      TwoSextets(v[0], v[1]);
      assert v == [v[0], v[1]];
    } else if |v| == 3 {
      ThreeSextets(v[0], v[1], v[2]);
      assert v == [v[0], v[1], v[2]];
    }
  }

  /** Decoding undoes encoding, and encoding leaves no spare bits. */
  lemma {:induction false} BytesOfSextets(b: seq<Byte>)
    ensures Bytes(Sextets(b)) == b && NoSpareBits(Sextets(b))
  {
    hide S0, S1, S2, S3, B0, B1, B2;
    if |b| == 0 {
    } else if |b| == 1 {
      OneByte(b[0]);
      assert [b[0]] == b;
    } else if |b| == 2 {
      TwoBytes(b[0], b[1]);
      assert [b[0], b[1]] == b;
    } else {
      BytesOfSextets(b[3..]);
      assert b == b[..3] + b[3..];
      SextetsCons(b[..3], b[3..]);
      BytesCons([S0(b[0]), S1(b[0], b[1]), S2(b[1], b[2]), S3(b[2])], Sextets(b[3..]));
      ByteGroup(b[0], b[1], b[2]);
    }
  }

  lemma DropGroup(v: seq<Sextet>)
    requires |v| >= 4 && |v| % 4 != 1 && NoSpareBits(v)
    ensures |v[4..]| % 4 != 1 && NoSpareBits(v[4..])
  {
  }

  /** Encoding undoes decoding when there are no spare bits. */
  lemma {:induction false} SextetsOfBytes(v: seq<Sextet>)
    requires |v| % 4 != 1 && NoSpareBits(v)
    ensures Sextets(Bytes(v)) == v
  {
    hide S0, S1, S2, S3, B0, B1, B2, Bytes, Sextets, NoSpareBits;
    if |v| < 4 {
      ShortSextets(v);
    } else {
      assert v == v[..4] + v[4..];
      BytesCons(v[..4], v[4..]);
      DropGroup(v);
      SextetsOfBytes(v[4..]);
      SextetsCons([B0(v[0], v[1]), B1(v[1], v[2]), B2(v[2], v[3])], Bytes(v[4..]));
      SextetGroup(v[0], v[1], v[2], v[3]);
    }
  }

  lemma {:induction false} SextetCount(b: seq<Byte>)
    ensures |Sextets(b)| % 4 != 1 && (b != [] <==> Sextets(b) != [])
  {
    if |b| >= 3 { SextetCount(b[3..]); }
  }

  // ---------------------------------------------------------------- library functions

  predicate Latin1(s: string) { forall i :: 0 <= i < |s| ==> s[i] as int < 256 }

  function ToBytes(s: string): (b: seq<Byte>)
    requires Latin1(s)
  {
    seq(|s|, i requires 0 <= i < |s| => s[i] as int)
  }

  function FromBytes(b: seq<Byte>): string {
    seq(|b|, i requires 0 <= i < |b| => b[i] as char)
  }

  function Padding(n: nat): string {
    if n % 3 == 0 then "" else if n % 3 == 1 then "==" else "="
  }

  /** `None`: it throws, for a character outside Latin-1. */
  function Btoa(s: string): Option<string> {
    if Latin1(s) then Some(Std(Sextets(ToBytes(s))) + Padding(|s|)) else None
  }

  predicate AsciiSpace(c: char) { c in {'\t', '\n', '\U{0C}', '\r', ' '} }

  function DropSpaces(s: string): string {
    if s == "" then "" else (if AsciiSpace(s[0]) then "" else [s[0]]) + DropSpaces(s[1..])
  }

  function DropPadding(s: string): string {
    if |s| % 4 == 0 && |s| > 0 && s[|s| - 1] == '=' then
      if s[|s| - 2] == '=' then s[..|s| - 2] else s[..|s| - 1]
    else s
  }

  predicate Alphabetic(s: string) { forall i :: 0 <= i < |s| ==> StdValue(s[i]).Some? }

  function Values(s: string): seq<Sextet>
    requires Alphabetic(s)
  {
    seq(|s|, i requires 0 <= i < |s| => StdValue(s[i]).value)
  }

  /** Forgiving base64 decoding; `None`: it throws. */
  function Atob(s: string): Option<string> {
    var t := DropPadding(DropSpaces(s));
    if |t| % 4 == 1 || !Alphabetic(t) then None else Some(FromBytes(Bytes(Values(t))))
  }

  lemma {:induction false} DropSpacesAppend(a: string, b: string)
    ensures DropSpaces(a + b) == DropSpaces(a) + DropSpaces(b)
  {
    if a == "" {
      assert a + b == b;
    } else {
      assert (a + b)[1..] == a[1..] + b;
      DropSpacesAppend(a[1..], b);
    }
  }

  /** The decoder skips tabs, line feeds, form feeds, carriage returns and blanks, wherever they stand. */
  lemma SpacesAreSkipped(a: string, c: char, b: string)
    requires c == '\t' || c == '\n' || c == '\U{0C}' || c == '\r' || c == ' '
    ensures Atob(a + [c] + b) == Atob(a + b)
  {
    hide DropPadding, Bytes, FromBytes;
    DropSpacesAppend(a + [c], b);
    DropSpacesAppend(a, [c]);
    DropSpacesAppend(a, b);
    assert [c][1..] == "";
    assert DropSpaces([c]) == "";
    assert DropSpaces(a) + "" == DropSpaces(a);
  }

  function ReplaceAll(s: string, c: char, to: string): string {
    if s == "" then "" else (if s[0] == c then to else [s[0]]) + ReplaceAll(s[1..], c, to)
  }

  function PadEnd(s: string, length: nat): string {
    if |s| < length then s + seq(length - |s|, _ => '=') else s
  }

  // ---------------------------------------------------------------- the program

  /** The URL-safe alphabet without padding. */
  function Safe(s: string): string { ReplaceAll(ReplaceAll(ReplaceAll(s, '+', "-"), '/', "_"), '=', "") }

  /** Back to the standard alphabet. */
  function Normal(id: string): string { ReplaceAll(ReplaceAll(id, '-', "+"), '_', "/") }

  /** Padded to a whole number of groups. */
  function ToGroup(t: string): string { PadEnd(t, |t| + (4 - |t| % 4) % 4) }

  function AppRecordFailureId(uri: string): Option<string> {
    match Btoa(uri)
    case None => None
    case Some(s) => Some(Safe(s))
  }

  function UriFromAppRecordFailureId(id: string): Option<string> {
    var normalized := Normal(Trim(id));
    if normalized == "" then None
    else Atob(ToGroup(normalized))
  }

  // ---------------------------------------------------------------- encoding

  lemma {:induction false} ReplaceAppend(s: string, t: string, c: char, to: string)
    ensures ReplaceAll(s + t, c, to) == ReplaceAll(s, c, to) + ReplaceAll(t, c, to)
  {
    if s == "" {
      assert s + t == t;
    } else {
      assert (s + t)[1..] == s[1..] + t;
      ReplaceAppend(s[1..], t, c, to);
    }
  }

  function Swap(s: string, c: char, to: char): string {
    seq(|s|, i requires 0 <= i < |s| => if s[i] == c then to else s[i])
  }

  lemma {:induction false} ReplaceOne(s: string, c: char, to: char)
    ensures ReplaceAll(s, c, [to]) == Swap(s, c, to)
  {
    if s != "" {
      ReplaceOne(s[1..], c, to);
      assert Swap(s, c, to) == [Swap(s, c, to)[0]] + Swap(s[1..], c, to);
    }
  }

  lemma {:induction false} ReplaceNone(s: string, c: char, to: string)
    requires c !in s
    ensures ReplaceAll(s, c, to) == s
  {
    if s != "" {
      ReplaceNone(s[1..], c, to);
      assert s == [s[0]] + s[1..];
    }
  }

  lemma CharsAgree(v: Sextet)
    ensures StdValue(StdChar(v)) == Some(v)
    ensures UrlChar(v) == if StdChar(v) == '+' then '-' else if StdChar(v) == '/' then '_' else StdChar(v)
    ensures UrlChar(v) != '=' && !IsSpace(UrlChar(v)) && !AsciiSpace(StdChar(v)) && StdChar(v) != '='
    ensures StdChar(v) == if UrlChar(v) == '-' then '+' else if UrlChar(v) == '_' then '/' else UrlChar(v)
    ensures StdChar(v) !in {'-', '_'}
  {
  }

  lemma SafeAppend(s: string, t: string)
    ensures Safe(s + t) == Safe(s) + Safe(t)
  {
    ReplaceAppend(s, t, '+', "-");
    ReplaceAppend(ReplaceAll(s, '+', "-"), ReplaceAll(t, '+', "-"), '/', "_");
    ReplaceAppend(ReplaceAll(ReplaceAll(s, '+', "-"), '/', "_"), ReplaceAll(ReplaceAll(t, '+', "-"), '/', "_"), '=',
                  "");
  }

  lemma PaddingGoes(n: nat)
    ensures Safe(Padding(n)) == ""
  {
    ReplaceNone(Padding(n), '+', "-");
    ReplaceNone(Padding(n), '/', "_");
    assert ReplaceAll("=", '=', "") == "" + ReplaceAll("", '=', "");
    assert "=="[1..] == "=";
  }

  lemma SafeStd(v: seq<Sextet>)
    ensures Safe(Std(v)) == Url(v)
  {
    ReplaceOne(Std(v), '+', '-');
    var s1 := Swap(Std(v), '+', '-');
    ReplaceOne(s1, '/', '_');
    var s2 := Swap(s1, '/', '_');
    forall i | 0 <= i < |v| ensures s2[i] == UrlChar(v[i]) && s2[i] != '=' {
      CharsAgree(v[i]);
    }
    assert s2 == Url(v);
    ReplaceNone(s2, '=', "");
  }

  /** The identifier spells the sextets of the URI in the URL-safe alphabet, without padding. */
  lemma IdIsUrl(uri: string)
    requires Latin1(uri)
    ensures AppRecordFailureId(uri) == Some(Url(Sextets(ToBytes(uri))))
  {
    SafeAppend(Std(Sextets(ToBytes(uri))), Padding(|uri|));
    SafeStd(Sextets(ToBytes(uri)));
    PaddingGoes(|uri|);
    assert Url(Sextets(ToBytes(uri))) + "" == Url(Sextets(ToBytes(uri)));
  }

  // ---------------------------------------------------------------- decoding

  lemma {:induction false} NoSpacesToDrop(s: string)
    requires forall i :: 0 <= i < |s| ==> !AsciiSpace(s[i])
    ensures DropSpaces(s) == s
  {
    if s != "" {
      NoSpacesToDrop(s[1..]);
      assert s == [s[0]] + s[1..];
    }
  }

  lemma NormalUrl(v: seq<Sextet>)
    ensures Normal(Url(v)) == Std(v)
  {
    ReplaceOne(Url(v), '-', '+');
    var s1 := Swap(Url(v), '-', '+');
    ReplaceOne(s1, '_', '/');
    forall i | 0 <= i < |v| ensures Swap(s1, '_', '/')[i] == StdChar(v[i]) { CharsAgree(v[i]); }
    assert Swap(s1, '_', '/') == Std(v);
  }

  lemma TrimUrl(v: seq<Sextet>)
    ensures Trim(Url(v)) == Url(v)
  {
    forall i | 0 <= i < |v| ensures !IsSpace(Url(v)[i]) { CharsAgree(v[i]); }
    TrimShape(Url(v));
  }

  lemma GroupLength(n: nat)
    requires n % 4 != 1
    ensures (4 - n % 4) % 4 == (if n % 4 == 0 then 0 else if n % 4 == 2 then 2 else 1)
    ensures (n + (4 - n % 4) % 4) % 4 == 0
  {
  }

  /** Padding to a whole group adds no, one or two characters, which the decoder drops again. */
  lemma PaddingIsDropped(t: string)
    requires t != "" && |t| % 4 != 1 && '=' !in t
    ensures DropPadding(ToGroup(t)) == t
  {
    GroupLength(|t|);
    var p := ToGroup(t);
    assert t[|t| - 1] != '=';
    if |t| % 4 == 0 {
      assert p == t;
    } else if |t| % 4 == 2 {
      assert |p| == |t| + 2 && p[..|p| - 2] == t;
    } else {
      assert |p| == |t| + 1 && p[|p| - 2] == t[|t| - 1] && p[..|p| - 1] == t;
    }
  }

  lemma StdDecodes(v: seq<Sextet>)
    ensures Alphabetic(Std(v)) && Values(Std(v)) == v && '=' !in Std(v)
    ensures forall i :: 0 <= i < |v| ==> !AsciiSpace(Std(v)[i])
  {
    forall i | 0 <= i < |v| ensures StdValue(Std(v)[i]) == Some(v[i]) && Std(v)[i] != '=' && !AsciiSpace(Std(v)[i]) {
      CharsAgree(v[i]);
    }
  }

  lemma AtobGroup(v: seq<Sextet>)
    requires v != [] && |v| % 4 != 1
    ensures Atob(ToGroup(Std(v))) == Some(FromBytes(Bytes(v)))
  {
    StdDecodes(v);
    PaddingIsDropped(Std(v));
    NoSpacesToDrop(ToGroup(Std(v)));
  }

  /** Decoding URL-safe text restores the standard alphabet and pads it to a whole group. */
  lemma DecodeUrl(v: seq<Sextet>)
    requires v != [] && |v| % 4 != 1
    ensures UriFromAppRecordFailureId(Url(v)) == Some(FromBytes(Bytes(v)))
  {
    TrimUrl(v);
    NormalUrl(v);
    assert Std(v) != "";
    assert UriFromAppRecordFailureId(Url(v)) == Atob(ToGroup(Normal(Trim(Url(v)))));
    AtobGroup(v);
  }

  // ---------------------------------------------------------------- round trips

  /** Every encodable URI comes back from its identifier, except the empty one, whose identifier is refused. */
  lemma UriRoundTrip(uri: string)
    requires Latin1(uri)
    ensures AppRecordFailureId(uri).Some?
    ensures UriFromAppRecordFailureId(AppRecordFailureId(uri).value) == if uri == "" then None else Some(uri)
  {
    IdIsUrl(uri);
    BytesOfSextets(ToBytes(uri));
    SextetCount(ToBytes(uri));
    if uri == "" {
      TrimShape("");
    } else {
      DecodeUrl(Sextets(ToBytes(uri)));
      assert FromBytes(ToBytes(uri)) == uri;
    }
  }

  /** URL-safe text whose last group is whole or has zero spare bits. */
  ghost predicate Canonical(id: string) {
    exists v: seq<Sextet> :: id == Url(v) && v != [] && |v| % 4 != 1 && NoSpareBits(v)
  }

  lemma CanonicalComesBack(id: string)
    requires Canonical(id)
    ensures UriFromAppRecordFailureId(id).Some? && UriFromAppRecordFailureId(id) != Some("")
    ensures AppRecordFailureId(UriFromAppRecordFailureId(id).value) == Some(id)
  {
    hide UriFromAppRecordFailureId, AppRecordFailureId;
    var v: seq<Sextet> :| id == Url(v) && v != [] && |v| % 4 != 1 && NoSpareBits(v);
    var uri := FromBytes(Bytes(v));
    DecodeUrl(v);
    SextetsOfBytes(v);
    assert ToBytes(uri) == Bytes(v);
    IdIsUrl(uri);
  }

  lemma IdIsCanonical(uri: string)
    requires uri != "" && Latin1(uri)
    ensures Canonical(AppRecordFailureId(uri).value)
  {
    hide AppRecordFailureId;
    IdIsUrl(uri);
    BytesOfSextets(ToBytes(uri));
    SextetCount(ToBytes(uri));
  }

  lemma EmptyIdIsRefused()
    ensures UriFromAppRecordFailureId("").None?
  {
    TrimShape("");
  }

  /** The canonical texts are exactly the identifiers of non-empty URIs, and exactly the texts that come back from
      the URI they decode to; padded, blank-padded or non-zero-tailed spellings decode but do not come back. */
  lemma IdsAreCanonical(id: string)
    ensures Canonical(id) <==> exists uri :: uri != "" && AppRecordFailureId(uri) == Some(id)
    ensures Canonical(id) <==> UriFromAppRecordFailureId(id).Some?
                               && AppRecordFailureId(UriFromAppRecordFailureId(id).value) == Some(id)
  {
    hide UriFromAppRecordFailureId, Canonical, Safe, Std, Sextets, Padding;
    if Canonical(id) { CanonicalComesBack(id); }
    if uri :| uri != "" && AppRecordFailureId(uri) == Some(id) { IdIsCanonical(uri); }
    EmptyIdIsRefused();
    EmptyId();
  }

  /** A text with a spare bit decodes and does not come back: "QR" names what "QQ" is the identifier of. */
  lemma SpareBitDoesNotComeBack()
    ensures UriFromAppRecordFailureId("QR") == Some("A") && AppRecordFailureId("A") == Some("QQ")
  {
    var v: seq<Sextet> := [16, 17];
    assert Url(v) == "QR";
    DecodeUrl(v);
    assert Bytes(v) == [65];
    assert FromBytes([65]) == "A";
    IdIsUrl("A");
    SextetsOfOne(65);
    assert ToBytes("A") == [65];
    assert Url([16, 16]) == "QQ";
  }

  lemma EmptyId()
    ensures AppRecordFailureId("") == Some("")
  {
    IdIsUrl("");
  }

  /** Different URIs have different identifiers. */
  lemma IdsTellUrisApart(a: string, b: string)
    requires Latin1(a) && Latin1(b) && AppRecordFailureId(a) == AppRecordFailureId(b)
    ensures a == b
  {
    UriRoundTrip(a);
    UriRoundTrip(b);
  }
}
