/** The laws assumed of the foreign formats do not contradict each other: some codec obeys all of them. The codec built
    here is a toy; nothing depends on it. */
module CodecExists {
  import opened Common
  import opened Codecs
  import M = Manifests
  import A = Archive

  type Encoding<!T> = T -> Bytes

  /** No encoding is the beginning of another one. */
  ghost predicate PrefixFree<T(!new)>(enc: Encoding<T>) {
    forall a: T, b: T, x: Bytes, y: Bytes :: enc(a) + x == enc(b) + y ==> a == b
  }

  /** What follows the first part of a longer encoding is the same, too. */
  lemma Peel<T(!new)>(enc: Encoding<T>, a: T, b: T, x: Bytes, y: Bytes)
    requires PrefixFree(enc) && enc(a) + x == enc(b) + y
    ensures a == b && x == y
  {
    assert x == (enc(a) + x)[|enc(a)|..];
    assert y == (enc(b) + y)[|enc(b)|..];
  }

  // ---------- combining encodings ----------

  function Both<S, T>(first: Encoding<S>, second: Encoding<T>): Encoding<(S, T)> {
    (p: (S, T)) => first(p.0) + second(p.1)
  }

  lemma BothPrefix<S(!new), T(!new)>(first: Encoding<S>, second: Encoding<T>)
    requires PrefixFree(first) && PrefixFree(second)
    ensures PrefixFree(Both(first, second))
  {
    var enc := Both(first, second);
    forall a: (S, T), b: (S, T), x: Bytes, y: Bytes | enc(a) + x == enc(b) + y ensures a == b {
      assert first(a.0) + (second(a.1) + x) == enc(a) + x == enc(b) + y == first(b.0) + (second(b.1) + y);
      Peel(first, a.0, b.0, second(a.1) + x, second(b.1) + y);
      Peel(second, a.1, b.1, x, y);
    }
  }

  ghost predicate Injective<S(!new), T>(f: S -> T) {
    forall a, b :: f(a) == f(b) ==> a == b
  }

  function Through<S, T>(f: S -> T, enc: Encoding<T>): Encoding<S> {
    (a: S) => enc(f(a))
  }

  lemma ThroughPrefix<S(!new), T(!new)>(f: S -> T, enc: Encoding<T>)
    requires Injective(f) && PrefixFree(enc)
    ensures PrefixFree(Through(f, enc))
  {
    var whole := Through(f, enc);
    forall a: S, b: S, x: Bytes, y: Bytes | whole(a) + x == whole(b) + y ensures a == b {
      Peel(enc, f(a), f(b), x, y);
    }
  }

  function OfList<T>(enc: Encoding<T>, s: seq<T>): Bytes {
    if s == [] then [0] else [1] + enc(s[0]) + OfList(enc, s[1..])
  }

  function ListOf<T>(enc: Encoding<T>): Encoding<seq<T>> {
    (s: seq<T>) => OfList(enc, s)
  }

  lemma {:induction false} ListStep<T(!new)>(enc: Encoding<T>, a: seq<T>, b: seq<T>, x: Bytes, y: Bytes)
    requires PrefixFree(enc) && OfList(enc, a) + x == OfList(enc, b) + y
    ensures a == b
  {
    var p, q := OfList(enc, a), OfList(enc, b);
    assert (p + x)[0] == p[0] && (q + y)[0] == q[0];
    if a != [] && b != [] {
      assert enc(a[0]) + (OfList(enc, a[1..]) + x) == (p + x)[1..];
      assert enc(b[0]) + (OfList(enc, b[1..]) + y) == (q + y)[1..];
      Peel(enc, a[0], b[0], OfList(enc, a[1..]) + x, OfList(enc, b[1..]) + y);
      ListStep(enc, a[1..], b[1..], x, y);
      assert a == [a[0]] + a[1..] && b == [b[0]] + b[1..];
    }
  }

  lemma ListPrefix<T(!new)>(enc: Encoding<T>)
    requires PrefixFree(enc)
    ensures PrefixFree(ListOf(enc))
  {
    forall a: seq<T>, b: seq<T>, x: Bytes, y: Bytes | ListOf(enc)(a) + x == ListOf(enc)(b) + y ensures a == b {
      ListStep(enc, a, b, x, y);
    }
  }

  // ---------- numbers and maps ----------

  function OfNat(n: nat): Bytes {
    if n == 0 then [0] else [1] + OfNat(n - 1)
  }

  function OfInt(n: int): Bytes {
    if n >= 0 then [1] + OfNat(n) else [0] + OfNat(-n)
  }

  lemma {:induction false} NatPrefix(a: nat, b: nat, x: Bytes, y: Bytes)
    requires OfNat(a) + x == OfNat(b) + y
    ensures a == b
  {
    assert (OfNat(a) + x)[0] == OfNat(a)[0] && (OfNat(b) + y)[0] == OfNat(b)[0];
    if a > 0 && b > 0 {
      assert OfNat(a - 1) + x == (OfNat(a) + x)[1..] == (OfNat(b) + y)[1..] == OfNat(b - 1) + y;
      NatPrefix(a - 1, b - 1, x, y);
    }
  }

  lemma Behind(first: byte, b: Bytes, x: Bytes)
    ensures ([first] + b + x)[0] == first && ([first] + b + x)[1..] == b + x
  {
  }

  lemma IntPrefix()
    ensures PrefixFree(OfInt)
  {
    hide OfNat;
    forall a: int, b: int, x: Bytes, y: Bytes | OfInt(a) + x == OfInt(b) + y ensures a == b {
      var m, n := if a >= 0 then a else -a, if b >= 0 then b else -b;
      Behind(if a >= 0 then 1 else 0, OfNat(m), x);
      Behind(if b >= 0 then 1 else 0, OfNat(n), y);
      NatPrefix(m, n, x, y);
    }
  }

  function FromList<T>(s: seq<(string, T)>): map<string, T> {
    if s == [] then map[] else FromList(s[1..])[s[0].0 := s[0].1]
  }

  lemma {:induction false} Listed<T(!new)>(m: map<string, T>)
    ensures exists s :: FromList(s) == m
    decreases |m|
  {
    if m == map[] {
      assert FromList<T>([]) == m;
    } else {
      var key :| key in m;
      var rest := m - {key};
      Listed(rest);
      var s :| FromList(s) == rest;
      var all := [(key, m[key])] + s;
      assert all[1..] == s;
      assert FromList(all) == rest[key := m[key]] == m;
    }
  }

  /** The entries of a map in some order. */
  ghost function Listing<T(!new)>(m: map<string, T>): (s: seq<(string, T)>)
    ensures FromList(s) == m
  {
    Listed(m);
    var s :| FromList(s) == m;
    s
  }

  const NUMBER: Encoding<int> := OfInt
  const FLAG: Encoding<bool> := Through((b: bool) => if b then 1 else 0, NUMBER)
  const LETTER: Encoding<char> := Through((c: char) => c as int, NUMBER)
  const OCTET: Encoding<byte> := Through((b: byte) => b as int, NUMBER)
  const TEXT: Encoding<string> := ListOf(LETTER)
  const DATA: Encoding<Bytes> := ListOf(OCTET)

  ghost function MapOf<T(!new)>(enc: Encoding<T>): Encoding<map<string, T>> {
    Through((m: map<string, T>) => Listing(m), ListOf(Both(TEXT, enc)))
  }

  lemma BasicsPrefix()
    ensures PrefixFree(NUMBER) && PrefixFree(FLAG) && PrefixFree(TEXT) && PrefixFree(DATA)
  {
    IntPrefix();
    ThroughPrefix((b: bool) => if b then 1 else 0, NUMBER);
    ThroughPrefix((c: char) => c as int, NUMBER);
    ThroughPrefix((b: byte) => b as int, NUMBER);
    ListPrefix(LETTER);
    ListPrefix(OCTET);
  }

  lemma MapPrefix<T(!new)>(enc: Encoding<T>)
    requires PrefixFree(enc)
    ensures PrefixFree(MapOf(enc))
  {
    BasicsPrefix();
    BothPrefix(TEXT, enc);
    ListPrefix(Both(TEXT, enc));
    ThroughPrefix((m: map<string, T>) => Listing(m), ListOf(Both(TEXT, enc)));
  }

  // ---------- manifests ----------

  const USER_PARTS := (u: M.User) => ((u.name, u.image), (u.service, u.wasRunning))
  const USER: Encoding<M.User> := Through(USER_PARTS, Both(Both(TEXT, TEXT), Both(TEXT, FLAG)))

  const VOLUME_PARTS := (v: M.Volume) =>
    (((v.name, v.driver), (v.driverOpts, v.labels)),
     (((v.sizeBytes as int, v.archive.sizeBytes as int), (v.archive.path, v.archive.sha256)),
      (v.consistent, v.containers)))

  ghost function AVolume(): Encoding<M.Volume> {
    Through(VOLUME_PARTS,
            Both(Both(Both(TEXT, TEXT), Both(MapOf(TEXT), MapOf(TEXT))),
                 Both(Both(Both(NUMBER, NUMBER), Both(TEXT, TEXT)), Both(FLAG, ListOf(USER)))))
  }

  const MANIFEST_PARTS := (m: M.Manifest) =>
    (((m.formatVersion, m.createdAt), (m.tool, m.host)), ((m.dockerVersion, m.helperImage), m.volumes))

  ghost function AManifest(): Encoding<M.Manifest> {
    Through(MANIFEST_PARTS, Both(Both(Both(NUMBER, NUMBER), Both(TEXT, TEXT)),
                                 Both(Both(TEXT, TEXT), ListOf(AVolume()))))
  }

  lemma UserPrefix()
    ensures PrefixFree(USER)
  {
    BasicsPrefix();
    BothPrefix(TEXT, TEXT);
    BothPrefix(TEXT, FLAG);
    BothPrefix(Both(TEXT, TEXT), Both(TEXT, FLAG));
    ThroughPrefix(USER_PARTS, Both(Both(TEXT, TEXT), Both(TEXT, FLAG)));
  }

  lemma VolumePrefix()
    ensures PrefixFree(AVolume())
  {
    BasicsPrefix();
    UserPrefix();
    MapPrefix(TEXT);
    ListPrefix(USER);
    BothPrefix(TEXT, TEXT);
    BothPrefix(MapOf(TEXT), MapOf(TEXT));
    BothPrefix(NUMBER, NUMBER);
    BothPrefix(FLAG, ListOf(USER));
    var a, b := Both(Both(TEXT, TEXT), Both(MapOf(TEXT), MapOf(TEXT))), Both(Both(NUMBER, NUMBER), Both(TEXT, TEXT));
    BothPrefix(Both(TEXT, TEXT), Both(MapOf(TEXT), MapOf(TEXT)));
    BothPrefix(Both(NUMBER, NUMBER), Both(TEXT, TEXT));
    BothPrefix(b, Both(FLAG, ListOf(USER)));
    BothPrefix(a, Both(b, Both(FLAG, ListOf(USER))));
    ThroughPrefix(VOLUME_PARTS, Both(a, Both(b, Both(FLAG, ListOf(USER)))));
  }

  lemma ManifestPrefix()
    ensures PrefixFree(AManifest())
  {
    BasicsPrefix();
    VolumePrefix();
    ListPrefix(AVolume());
    BothPrefix(NUMBER, NUMBER);
    BothPrefix(TEXT, TEXT);
    var a, b := Both(Both(NUMBER, NUMBER), Both(TEXT, TEXT)), Both(Both(TEXT, TEXT), ListOf(AVolume()));
    BothPrefix(Both(NUMBER, NUMBER), Both(TEXT, TEXT));
    BothPrefix(Both(TEXT, TEXT), ListOf(AVolume()));
    BothPrefix(a, b);
    ThroughPrefix(MANIFEST_PARTS, Both(a, b));
  }

  // ---------- decoding ----------

  /** Whatever has this encoding, if anything has. */
  ghost function Decoded<T(!new)>(enc: Encoding<T>, b: Bytes): Option<T> {
    if exists t :: enc(t) == b then
      var t :| enc(t) == b;
      Some(t)
    else None
  }

  lemma DecodedIs<T(!new)>(enc: Encoding<T>, t: T)
    requires PrefixFree(enc)
    ensures Decoded(enc, enc(t)) == Some(t)
  {
    forall u | enc(u) == enc(t) ensures u == t { assert enc(u) + [] == enc(t) + []; }
  }

  // ---------- headers ----------

  const NAME_AND_SIZE: Encoding<(string, nat)> := Both(TEXT, Through((n: nat) => n as int, NUMBER))

  function Filled(b: Bytes): Bytes {
    b + seq((BLOCK - |b| % BLOCK) % BLOCK, _ => 0)
  }

  /** A nonzero byte for the type, the name and the size, filled up to whole blocks. */
  function HeaderOf(link: bool, name: string, size: nat): Bytes {
    Filled([if link then 2 else 1] + NAME_AND_SIZE((name, size)))
  }

  lemma HeaderPrefix(s: bool, a: string, m: nat, t: bool, b: string, n: nat, x: Bytes, y: Bytes)
    requires HeaderOf(s, a, m) + x == HeaderOf(t, b, n) + y
    ensures s == t && a == b && m == n
  {
    BasicsPrefix();
    ThroughPrefix((n: nat) => n as int, NUMBER);
    BothPrefix(TEXT, Through((n: nat) => n as int, NUMBER));
    HeaderStart(s, a, m, x);
    HeaderStart(t, b, n, y);
    hide HeaderOf;
    var p, q := NAME_AND_SIZE((a, m)), NAME_AND_SIZE((b, n));
    Peel(NAME_AND_SIZE, (a, m), (b, n), HeaderOf(s, a, m)[1 + |p|..] + x, HeaderOf(t, b, n)[1 + |q|..] + y);
  }

  lemma HeaderStart(link: bool, name: string, size: nat, x: Bytes)
    ensures var p, h := NAME_AND_SIZE((name, size)), HeaderOf(link, name, size);
            |h| >= 1 + |p| && (h + x)[0] == (if link then 2 else 1) && (h + x)[1..] == p + (h[1 + |p|..] + x)
  {
  }

  ghost predicate StartsWith(b: Bytes, link: bool, name: string, size: nat) {
    HeaderOf(link, name, size) <= b
  }

  /** A link is followed by no data. */
  ghost function ParsedHeader(b: Bytes): Header {
    if exists p: (bool, string, nat) :: StartsWith(b, p.0, p.1, p.2) then
      var p: (bool, string, nat) :| StartsWith(b, p.0, p.1, p.2);
      Header(p.1, p.2, |HeaderOf(p.0, p.1, p.2)|, if p.0 then 0 else p.2)
    else Bad
  }

  lemma HeaderSize(link: bool, name: string, size: nat)
    ensures var h := HeaderOf(link, name, size); |h| % BLOCK == 0 && |h| >= BLOCK && h[0] != 0
  {
    FilledSize([if link then 2 else 1] + NAME_AND_SIZE((name, size)));
  }

  lemma FilledSize(b: Bytes)
    requires b != []
    ensures |Filled(b)| % BLOCK == 0 && |Filled(b)| >= BLOCK && Filled(b)[0] == b[0]
  {
    assert |Filled(b)| == |b| + (BLOCK - |b| % BLOCK) % BLOCK;
  }

  lemma ParsedIs(link: bool, name: string, size: nat, rest: Bytes)
    ensures ParsedHeader(HeaderOf(link, name, size) + rest)
            == Header(name, size, |HeaderOf(link, name, size)|, if link then 0 else size)
  {
    var b, q := HeaderOf(link, name, size) + rest, (link, name, size);
    assert StartsWith(b, q.0, q.1, q.2);
    forall p: (bool, string, nat) | StartsWith(b, p.0, p.1, p.2) ensures p == q {
      var h := HeaderOf(p.0, p.1, p.2);
      assert b == h + b[|h|..];
      HeaderPrefix(p.0, p.1, p.2, link, name, size, b[|h|..], rest);
    }
  }

  lemma CutIsNoHeader(name: string, size: nat, i: nat)
    requires i < |HeaderOf(false, name, size)|
    ensures !ParsedHeader(HeaderOf(false, name, size)[..i]).Header?
  {
    var whole := HeaderOf(false, name, size);
    forall p: (bool, string, nat) ensures !StartsWith(whole[..i], p.0, p.1, p.2) {
      var h := HeaderOf(p.0, p.1, p.2);
      if h <= whole[..i] {
        assert whole == h + whole[|h|..];
        assert whole == whole + [];
        HeaderPrefix(p.0, p.1, p.2, false, name, size, whole[|h|..], []);
        assert false;
      }
    }
  }

  // ---------- the codec ----------

  ghost function Toy(): Codec {
    Codec(MapOf(DATA), b => Decoded(MapOf(DATA), b),
          (b: Bytes, n: nat) => [b], _ => [], cs => Concat(cs), b => Some(b),
          _ => seq(64, _ => '0'),
          (name: string, size: nat) => HeaderOf(false, name, size), b => ParsedHeader(b),
          (header: Bytes, data: Bytes) => Some(data),
          AManifest(), b => Decoded(AManifest(), b), _ => [])
  }

  lemma ParsedFits(b: Bytes, x: Bytes)
    requires ParsedHeader(b).Header?
    ensures var len := ParsedHeader(b).len; BLOCK <= len <= |b| && ParsedHeader(b[..len] + x) == ParsedHeader(b)
  {
    var p: (bool, string, nat) :| StartsWith(b, p.0, p.1, p.2)
                                && ParsedHeader(b) == Header(p.1, p.2, |HeaderOf(p.0, p.1, p.2)|,
                                                             if p.0 then 0 else p.2);
    HeaderSize(p.0, p.1, p.2);
    assert b[..|HeaderOf(p.0, p.1, p.2)|] == HeaderOf(p.0, p.1, p.2);
    ParsedIs(p.0, p.1, p.2, x);
  }

  lemma ToyParses()
    ensures ParseLaw(Toy())
  {
    hide HeaderOf, ParsedHeader, MapOf, AManifest, KnownName;
    var k := Toy();
    forall b: Bytes | k.parse(b).Header? ensures BLOCK <= k.parse(b).len <= |b| { ParsedFits(b, []); }
    forall b: Bytes, x: Bytes | k.parse(b).Header? && k.parse(b).len <= |b|
      ensures k.parse(b[..k.parse(b).len] + x) == k.parse(b)
    {
      ParsedFits(b, x);
    }
  }

  lemma ToyHeaders()
    ensures HeaderLaw(Toy())
  {
    hide HeaderOf, ParsedHeader, MapOf, AManifest, KnownName;
    var k := Toy();
    forall n: string, s: nat | KnownName(n)
      ensures |k.header(n, s)| % BLOCK == 0 && |k.header(n, s)| >= BLOCK && !ZeroBlock(k.header(n, s)[..BLOCK])
    {
      HeaderSize(false, n, s);
    }
    forall n: string, s: nat, rest: Bytes | KnownName(n)
      ensures k.parse(k.header(n, s) + rest) == Header(n, s, |k.header(n, s)|, s)
    {
      ParsedIs(false, n, s, rest);
    }
    forall n: string, s: nat, i: nat | KnownName(n) && BLOCK <= i < |k.header(n, s)|
      ensures !k.parse(k.header(n, s)[..i]).Header?
    {
      CutIsNoHeader(n, s, i);
    }
  }

  lemma ToyIsLawful()
    ensures Lawful(Toy())
  {
    hide HeaderOf, ParsedHeader, MapOf, AManifest, HeaderLaw, ParseLaw, Decoded;
    var k := Toy();
    BasicsPrefix();
    MapPrefix(DATA);
    ManifestPrefix();
    forall c: Contents ensures k.unpack(k.pack(c)) == Some(c) { DecodedIs(MapOf(DATA), c); }
    forall m: M.Manifest ensures k.unyaml(k.yaml(m)) == Some(m) { DecodedIs(AManifest(), m); }
    forall b: Bytes, n: nat ensures Concat(k.chop(b, n)) == b { assert [b][1..] == []; }
    ToyParses();
    ToyHeaders();
  }

  /** There is a codec that obeys every law, and one whose tar reader knows links: for it Open accepts a file with a
      section that goes beyond the end of the file. */
  lemma LawsAreConsistent()
    ensures exists k, file :: Lawful(k) && A.OpenSpec(k, file).Some? && !A.SectionsSafe(A.OpenSpec(k, file).value)
  {
    hide HeaderOf, ParsedHeader, Lawful, A.OpenSpec, A.SectionsSafe, AManifest, MapOf;
    var k, name := Toy(), M.README_PATH;
    ToyIsLawful();
    var b := HeaderOf(true, name, 1);
    HeaderSize(true, name, 1);
    assert b + [] == b;
    ParsedIs(true, name, 1, []);
    assert b[..BLOCK][0] != 0;
    assert A.NextHeader(k, b) == Header(name, 1, |b|, 0);
    A.OverstatedBreaks(k, b);
  }
}
