/** The foreign formats: GNU tar streams, zstd, SHA-256, YAML and the outer tar header.
    They are arbitrary functions, bound only by the laws the program relies on. */
module Codecs {
  import opened Common
  import M = Manifests

  /** What a volume holds: a path for every file and its bytes. */
  type Contents = map<string, Bytes>

  /** What reading one outer tar header can give: the size it states, the length of the whole header group, and how many
      bytes of data follow. A regular entry is followed by as many bytes as it states; a link or a directory is followed
      by none, and a sparse file by less than it states. */
  datatype Header = Header(name: string, size: nat, len: nat, data: nat) | End | Bad

  const BLOCK: nat := 512

  datatype Codec = Codec(
    pack: Contents -> Bytes,              // tar -c inside the helper
    unpack: Bytes -> Option<Contents>,    // tar -x inside the helper
    chop: (Bytes, nat) -> seq<Bytes>,     // how the stream of the n-th request is cut into reads
    squeeze: seq<Bytes> -> Bytes,         // zstd output after these writes
    finish: seq<Bytes> -> Bytes,          // zstd output after these writes and Close
    expand: Bytes -> Option<Bytes>,       // zstd decoder
    sha: Bytes -> string,
    header: (string, nat) -> Bytes,       // outer tar header blocks of an entry
    parse: Bytes -> Header,               // outer tar header at the start of these bytes
    content: (Bytes, Bytes) -> Option<Bytes>, // what reading an entry gives, from its header and the data that follows
    yaml: M.Manifest -> Bytes,
    unyaml: Bytes -> Option<M.Manifest>,
    readme: M.Manifest -> Bytes)

  predicate ZeroBlock(b: Bytes) {
    |b| == BLOCK && forall i | 0 <= i < BLOCK :: b[i] == 0
  }

  /** The only names the writer puts in an outer header. */
  predicate KnownName(name: string) {
    name == M.MANIFEST_PATH || name == M.README_PATH || M.IsVolumeEntry(name)
  }

  ghost predicate TarLaw(k: Codec) {
    forall c: Contents :: k.unpack(k.pack(c)) == Some(c)
  }

  ghost predicate ZstdLaw(k: Codec) {
    && k.squeeze([]) == []
    && (forall cs: seq<Bytes>, c: Bytes :: k.squeeze(cs) <= k.squeeze(cs + [c]))
    && (forall cs: seq<Bytes> :: k.squeeze(cs) <= k.finish(cs))
    && (forall cs: seq<Bytes> :: k.expand(k.finish(cs)) == Some(Concat(cs)))
  }

  ghost predicate HashLaw(k: Codec) {
    forall b: Bytes :: |k.sha(b)| == 64
  }

  ghost predicate YamlLaw(k: Codec) {
    forall m: M.Manifest :: k.unyaml(k.yaml(m)) == Some(m)
  }

  ghost predicate ChopLaw(k: Codec) {
    forall b: Bytes, n: nat :: Concat(k.chop(b, n)) == b
  }

  /** A header group lies inside the bytes read, and nothing behind it has a say in what it means. */
  ghost predicate ParseLaw(k: Codec) {
    && (forall b: Bytes :: k.parse(b).Header? ==> BLOCK <= k.parse(b).len <= |b|)
    && (forall b: Bytes, x: Bytes | k.parse(b).Header? && k.parse(b).len <= |b| ::
          k.parse(b[..k.parse(b).len] + x) == k.parse(b))
  }

  /** Headers that are written span whole blocks, do not start with a zero block and announce a regular entry; cut short
      they are never taken for a header. */
  ghost predicate HeaderLaw(k: Codec) {
    && (forall n: string, s: nat | KnownName(n) ::
          |k.header(n, s)| % BLOCK == 0 && |k.header(n, s)| >= BLOCK && !ZeroBlock(k.header(n, s)[..BLOCK]))
    && (forall n: string, s: nat, rest: Bytes | KnownName(n) ::
          k.parse(k.header(n, s) + rest) == Header(n, s, |k.header(n, s)|, s))
    && (forall n: string, s: nat, i: nat | KnownName(n) && BLOCK <= i < |k.header(n, s)| ::
          !k.parse(k.header(n, s)[..i]).Header?)
    && (forall n: string, d: Bytes | KnownName(n) :: k.content(k.header(n, |d|), d) == Some(d))
  }

  ghost predicate Lawful(k: Codec) {
    TarLaw(k) && ZstdLaw(k) && HashLaw(k) && YamlLaw(k) && ChopLaw(k) && ParseLaw(k) && HeaderLaw(k)
  }
}
