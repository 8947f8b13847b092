/** The private and reserved host names of lib/security.ts, as blocks of addresses and top-level names. */
module AccountHostAddresses {
  import opened Text
  import opened AccountHostDirectory

  // ---------------------------------------------------------------- names

  /** The name in lower case, without the dot that may end it. */
  ghost predicate Undotted(name: string, bare: string) {
    if exists rest :: Lower(name) == rest + "." then Lower(name) == bare + "." else bare == Lower(name)
  }

  /** The name of this top-level domain, or one inside it. */
  ghost predicate Under(bare: string, top: string) { bare == top || exists sub :: bare == sub + "." + top }

  ghost predicate ReservedName(bare: string) {
    || Under(bare, "localhost") || Under(bare, "local") || Under(bare, "internal") || Under(bare, "home.arpa")
    || Under(bare, "test") || Under(bare, "invalid") || Under(bare, "example") || Under(bare, "onion")
  }

  lemma BareIsUndotted(name: string)
    ensures Undotted(name, Bare(name))
    ensures forall bare :: Undotted(name, bare) ==> bare == Bare(name)
  {
    var s := Lower(name);
    if s != "" && s[|s| - 1] == '.' { assert s == s[..|s| - 1] + "."; }
    forall rest | s == rest + "." ensures s != "" && s[|s| - 1] == '.' && rest == s[..|s| - 1] { }
  }

  lemma UnderExactly(bare: string, top: string)
    ensures Under(bare, top) <==> bare == top || EndsWith(bare, "." + top)
  {
    var tail := "." + top;
    if EndsWith(bare, tail) {
      var sub := bare[..|bare| - |tail|];
      Regrouped(sub, top);
      assert bare == sub + tail;
    }
    if sub :| bare == sub + "." + top {
      Regrouped(sub, top);
    }
  }

  lemma Regrouped(sub: string, top: string)
    ensures sub + "." + top == sub + ("." + top) && (sub + ("." + top))[|sub|..] == "." + top
  {
  }

  lemma NamesExactly(name: string)
    ensures PrivateHostname(Domain(name)) <==> exists bare :: Undotted(name, bare) && ReservedName(bare)
  {
    hide EndsWith, Under, Undotted;
    BareIsUndotted(name);
    forall i | 0 <= i < |RESERVED|
      ensures Under(Bare(name), RESERVED[i]) <==> Bare(name) == RESERVED[i] || EndsWith(Bare(name), "." + RESERVED[i])
    {
      UnderExactly(Bare(name), RESERVED[i]);
    }
    assert ReservedName(Bare(name)) <==> exists i :: 0 <= i < |RESERVED| && Under(Bare(name), RESERVED[i]) by {
      assert RESERVED[0] == "localhost" && RESERVED[1] == "local" && RESERVED[2] == "internal"
             && RESERVED[3] == "home.arpa" && RESERVED[4] == "test" && RESERVED[5] == "invalid"
             && RESERVED[6] == "example" && RESERVED[7] == "onion";
    }
  }

  // ---------------------------------------------------------------- IPv4

  /** 0/8, 10/8, 100.64/10, 127/8, 169.254/16, 172.16/12, 192.0.0/24, 192.0.2/24, 192.168/16, 198.18/15,
      198.51.100/24, 203.0.113/24 and 224/3. */
  predicate Special4(v: int) {
    || v < 0x0100_0000
    || 0x0A00_0000 <= v < 0x0B00_0000
    || 0x6440_0000 <= v < 0x6480_0000
    || 0x7F00_0000 <= v < 0x8000_0000
    || 0xA9FE_0000 <= v < 0xA9FF_0000
    || 0xAC10_0000 <= v < 0xAC20_0000
    || 0xC000_0000 <= v < 0xC000_0100
    || 0xC000_0200 <= v < 0xC000_0300
    || 0xC0A8_0000 <= v < 0xC0A9_0000
    || 0xC612_0000 <= v < 0xC614_0000
    || 0xC633_6400 <= v < 0xC633_6500
    || 0xCB00_7100 <= v < 0xCB00_7200
    || 0xE000_0000 <= v
  }

  /** An IPv4 address is not public if and only if it lies in one of these blocks. */
  lemma Ipv4Exactly(a: nat, b: nat, c: nat, d: nat)
    requires a < 0x100 && b < 0x100 && c < 0x100 && d < 0x100
    ensures PrivateHostname(Ipv4(a, b, c, d)) <==> Special4(((a * 0x100 + b) * 0x100 + c) * 0x100 + d)
  {
  }

  // ---------------------------------------------------------------- IPv6

  /** The upper and the lower 64 bits. */
  function Upper(w: seq<nat>): int
    requires |w| == 8
  {
    ((w[0] * 0x1_0000 + w[1]) * 0x1_0000 + w[2]) * 0x1_0000 + w[3]
  }

  function Low(w: seq<nat>): int
    requires |w| == 8
  {
    ((w[4] * 0x1_0000 + w[5]) * 0x1_0000 + w[6]) * 0x1_0000 + w[7]
  }

  /** fc00::/7, fe80::/10, fec0::/10, ff00::/8, 100::/64, 2001:2::/48, 2001:db8::/32 and 3fff::/20. */
  predicate Special6(upper: int) {
    || 0xFC00_0000_0000_0000 <= upper < 0xFE00_0000_0000_0000
    || 0xFE80_0000_0000_0000 <= upper < 0xFEC0_0000_0000_0000
    || 0xFEC0_0000_0000_0000 <= upper < 0xFF00_0000_0000_0000
    || 0xFF00_0000_0000_0000 <= upper
    || upper == 0x0100_0000_0000_0000
    || 0x2001_0002_0000_0000 <= upper < 0x2001_0002_0001_0000
    || 0x2001_0DB8_0000_0000 <= upper < 0x2001_0DB9_0000_0000
    || 0x3FFF_0000_0000_0000 <= upper < 0x3FFF_1000_0000_0000
  }

  /** `::`, `::1`, and the IPv4 addresses written as ::a.b.c.d or ::ffff:a.b.c.d. */
  predicate SpecialEmbedded(low: int) {
    || low <= 1
    || (low < 0x1_0000_0000 && Special4(low))
    || (0xFFFF_0000_0000 <= low < 0x1_0000_0000_0000 && Special4(low - 0xFFFF_0000_0000))
  }

  lemma UpperWords(w: seq<nat>)
    requires |w| == 8 && forall i :: 0 <= i < 8 ==> w[i] < 0x1_0000
    ensures Special6(Upper(w)) <==>
            || w[0] / 0x200 == 0xfc00 / 0x200 || w[0] / 0x40 == 0xfe80 / 0x40 || w[0] / 0x40 == 0xfec0 / 0x40
            || w[0] / 0x100 == 0xff
            || (w[0] == 0x0100 && w[1] == 0 && w[2] == 0 && w[3] == 0)
            || (w[0] == 0x2001 && w[1] == 0x0002 && w[2] == 0)
            || (w[0] == 0x2001 && w[1] == 0x0db8)
            || (w[0] == 0x3fff && w[1] / 0x1000 == 0)
  {
  }

  lemma EmbeddedWords(w: seq<nat>)
    requires |w| == 8 && (forall i :: 0 <= i < 8 ==> w[i] < 0x1_0000) && Upper(w) == 0
    ensures SpecialEmbedded(Low(w)) <==>
            || (ZeroUpTo(w, 7) && w[7] <= 1)
            || (ZeroUpTo(w, 5) && (w[5] == 0xffff || w[5] == 0)
                && NonPublicIpv4(w[6] / 0x100, w[6] % 0x100, w[7] / 0x100))
  {
    hide Special4, NonPublicIpv4;
    var a, b, c, d := w[6] / 0x100, w[6] % 0x100, w[7] / 0x100, w[7] % 0x100;
    Ipv4Exactly(a, b, c, d);
    assert ((a * 0x100 + b) * 0x100 + c) * 0x100 + d == w[6] * 0x1_0000 + w[7];
  }

  /** An IPv6 address is not public if and only if its upper half lies in one of the blocks, or is zero and the lower
      half is loopback, unspecified or a special IPv4 address. */
  lemma Ipv6Exactly(w: seq<nat>)
    requires |w| == 8 && forall i :: 0 <= i < 8 ==> w[i] < 0x1_0000
    ensures PrivateHostname(Ipv6(w)) <==> Special6(Upper(w)) || (Upper(w) == 0 && SpecialEmbedded(Low(w)))
  {
    hide Special6, SpecialEmbedded, NonPublicIpv4;
    UpperWords(w);
    if Upper(w) == 0 { EmbeddedWords(w); }
  }
}
