/** The outer archive file: what the writer prints and how the reader takes it apart (internal/archive). */
module Archive {
  import opened Common
  import opened Codecs
  import opened M = Manifests

  function Pad(n: nat): nat {
    (BLOCK - n % BLOCK) % BLOCK
  }

  function Min(a: nat, b: nat): nat {
    if a < b then a else b
  }

  function Zeros(n: nat): Bytes {
    seq(n, _ => 0)
  }

  datatype Item = Item(name: string, data: Bytes)

  function PrintItem(k: Codec, it: Item): (b: Bytes)
    ensures |b| == |k.header(it.name, |it.data|)| + |it.data| + Pad(|it.data|)
  {
    k.header(it.name, |it.data|) + it.data + Zeros(Pad(|it.data|))
  }

  lemma PadFills(n: nat)
    ensures Pad(n) < BLOCK && (n + Pad(n)) % BLOCK == 0
  {
    var q, r := n / BLOCK, n % BLOCK;
    assert n == BLOCK * q + r;
    if r == 0 {
      assert Pad(n) == 0;
    } else {
      assert Pad(n) == BLOCK - r;
      assert n + Pad(n) == BLOCK * (q + 1);
    }
  }

  lemma BlocksAddUp(a: nat, b: nat)
    requires a % BLOCK == 0 && b % BLOCK == 0
    ensures (a + b) % BLOCK == 0
  {
    assert BLOCK == 512 && a % 512 == 0 && b % 512 == 0;
    assert (a + b) % 512 == 0;
  }

  lemma WholeEntry(head: nat, data: nat, whole: nat)
    requires head % BLOCK == 0 && whole == head + data + Pad(data)
    ensures Pad(data) < BLOCK && whole % BLOCK == 0
  {
    hide Pad;
    PadFills(data);
    BlocksAddUp(head, data + Pad(data));
  }

  /** Entries occupy whole blocks. */
  lemma PrintedInBlocks(k: Codec, it: Item)
    requires HeaderLaw(k) && KnownName(it.name)
    ensures Pad(|it.data|) < BLOCK && |PrintItem(k, it)| % BLOCK == 0
  {
    hide Pad, PrintItem, HeaderLaw, KnownName;
    WholeHeader(k, it.name, |it.data|);
    WholeEntry(|k.header(it.name, |it.data|)|, |it.data|, |PrintItem(k, it)|);
  }

  lemma WholeHeader(k: Codec, name: string, size: nat)
    requires HeaderLaw(k) && KnownName(name)
    ensures |k.header(name, size)| % BLOCK == 0
  {
    hide KnownName, ZeroBlock;
  }

  function PrintAll(k: Codec, items: seq<Item>): Bytes {
    if items == [] then [] else PrintItem(k, items[0]) + PrintAll(k, items[1..])
  }

  lemma {:induction false} PrintAllConcat(k: Codec, a: seq<Item>, b: seq<Item>)
    ensures PrintAll(k, a + b) == PrintAll(k, a) + PrintAll(k, b)
  {
    if a == [] {
      assert a + b == b;
    } else {
      assert (a + b)[1..] == a[1..] + b;
      PrintAllConcat(k, a[1..], b);
    }
  }

  const TRAILER: Bytes := Zeros(2 * BLOCK)

  /** The items of a finished archive: the compressed volumes, then the manifest, then its rendering. */
  function Items(k: Codec, m: Manifest, zs: seq<Bytes>): seq<Item>
    requires |zs| == |m.volumes|
  {
    seq(|zs|, i requires 0 <= i < |zs| => Item(VolumePath(m.volumes[i].name), zs[i]))
      + [Item(MANIFEST_PATH, k.yaml(m)), Item(README_PATH, k.readme(m))]
  }

  function Image(k: Codec, m: Manifest, zs: seq<Bytes>): Bytes
    requires |zs| == |m.volumes|
  {
    PrintAll(k, Items(k, m, zs)) + TRAILER
  }

  // ---------- reading ----------

  datatype Section = Section(off: nat, size: nat)

  datatype Reader = Reader(m: Manifest, entries: map<string, Section>, file: Bytes)

  datatype Scan = Scanned(entries: map<string, Section>, manifest: Option<Bytes>) | Malformed

  /** The next header, or the end: no bytes left, or a zero block followed by nothing or by another zero block. */
  function NextHeader(k: Codec, rest: Bytes): (h: Header)
    ensures h.Header? ==> BLOCK <= h.len <= |rest|
  {
    if rest == [] then End
    else if |rest| < BLOCK then Bad
    else if ZeroBlock(rest[..BLOCK]) then
      if |rest| == BLOCK then End
      else if |rest| < 2 * BLOCK then Bad
      else if ZeroBlock(rest[BLOCK..2 * BLOCK]) then End
      else Bad
    else
      var h := k.parse(rest);
      if h.Header? && !(BLOCK <= h.len <= |rest|) then Bad else h
  }

  /** Where the scan of Open stands: the bytes still to read, their offset, and what was recorded so far. */
  datatype Cursor = Cursor(rest: Bytes, off: nat, entries: map<string, Section>, manifest: Option<Bytes>)

  datatype Advance = Done(scan: Scan) | More(cursor: Cursor)

  /** One turn of the scan. Data must be complete; missing padding reads as the end. */
  function AdvanceSpec(k: Codec, c: Cursor): (a: Advance)
    ensures a.More? ==> |a.cursor.rest| < |c.rest| && a.cursor.off + |a.cursor.rest| == c.off + |c.rest|
  {
    match NextHeader(k, c.rest)
    case End => Done(Scanned(c.entries, c.manifest))
    case Bad => Done(Malformed)
    case Header(name, size, len, data) =>
      if !KnownName(name) || len + data > |c.rest| then Done(Malformed)
      else if name == MANIFEST_PATH && k.content(c.rest[..len], c.rest[len..len + data]).None? then Done(Malformed)
      else More(Past(k, c, name, size, len, data))
  }

  /** The cursor behind an entry and its padding. The section recorded has the size that the header states. */
  function Past(k: Codec, c: Cursor, name: string, size: nat, len: nat, data: nat): Cursor
    requires len + data <= |c.rest|
  {
    var used := Min(len + data + Pad(data), |c.rest|);
    Cursor(c.rest[used..], c.off + used, c.entries[name := Section(c.off + len, size)],
           if name == MANIFEST_PATH then k.content(c.rest[..len], c.rest[len..len + data]) else c.manifest)
  }

  function ScanSpec(k: Codec, c: Cursor): Scan
    decreases |c.rest|
  {
    match AdvanceSpec(k, c)
    case Done(scan) => scan
    case More(c') => ScanSpec(k, c')
  }

  predicate EntriesMatch(vols: seq<Volume>, entries: map<string, Section>) {
    forall i | 0 <= i < |vols| ::
      vols[i].archive.path in entries && entries[vols[i].archive.path].size == vols[i].archive.sizeBytes
  }

  /** manifest.Parse */
  function ParseSpec(k: Codec, data: Bytes): Option<Manifest> {
    var m := k.unyaml(data);
    if m.Some? && m.value.formatVersion == FORMAT_VERSION && Trusted(m.value.volumes) then m else None
  }

  function OpenSpec(k: Codec, file: Bytes): Option<Reader> {
    var scan := ScanSpec(k, Cursor(file, 0, map[], None));
    if scan.Malformed? || scan.manifest.None? then None
    else
      var m := ParseSpec(k, scan.manifest.value);
      if m.None? || !EntriesMatch(m.value.volumes, scan.entries) then None
      else Some(Reader(m.value, scan.entries, file))
  }

  /** The bytes of the section recorded for a volume, as far as the file goes. */
  function Stored(r: Reader, v: Volume): Bytes {
    if v.archive.path in r.entries then
      var sec := r.entries[v.archive.path];
      r.file[Min(sec.off, |r.file|)..Min(sec.off + sec.size, |r.file|)]
    else []
  }

  function VerifySpec(k: Codec, r: Reader, name: string): Option<Error> {
    var v := Find(r.m.volumes, name);
    if v.None? then Some(NotFound({name}, {}))
    else if k.sha(Stored(r, v.value)) != v.value.archive.sha256 then Some(ChecksumMismatch(name))
    else None
  }

  /** The decompressed stream of a volume; None if the volume is unknown or its data does not decode. */
  function OpenVolumeSpec(k: Codec, r: Reader, name: string): Option<Bytes> {
    var v := Find(r.m.volumes, name);
    if v.None? then None else k.expand(Stored(r, v.value))
  }

  /** What Open has checked of any file it accepts, whoever wrote it. */
  ghost predicate CheckedReader(r: Reader) {
    && r.m.formatVersion == 1
    && (forall i, j :: 0 <= i < j < |r.m.volumes| ==> r.m.volumes[i].name != r.m.volumes[j].name)
    && (forall v :: v in r.m.volumes ==> CheckedVolume(r, v))
    && forall n :: n in r.entries ==> n == "manifest.yaml" || n == "README.md" || NamesVolume(n)
  }

  ghost predicate CheckedVolume(r: Reader, v: Volume) {
    && ValidName(v.name) && v.archive.path == "volumes/" + v.name + ".tar.zst" && |v.archive.sha256| == 64
    && v.archive.path in r.entries && r.entries[v.archive.path].size == v.archive.sizeBytes
  }

  ghost predicate NamesVolume(entry: string) {
    exists name :: ValidName(name) && entry == "volumes/" + name + ".tar.zst"
  }

  /** All sections lie inside the file and do not overlap. The section of the manifest is left out: it is never read. */
  ghost predicate SectionsSafe(r: Reader) {
    Below(r.entries, |r.file|)
  }

  predicate Disjoint(a: Section, b: Section) {
    a.off + a.size <= b.off || b.off + b.size <= a.off
  }

  /** Invariant of the scan: everything recorded lies before off. */
  ghost predicate Below(entries: map<string, Section>, off: nat) {
    && (forall n :: n in entries && n != MANIFEST_PATH ==> entries[n].off + entries[n].size <= off)
    && (forall a, b :: a in entries && b in entries && a != b && a != MANIFEST_PATH && b != MANIFEST_PATH ==>
          Disjoint(entries[a], entries[b]))
  }

  /** A header that states more data than follows it, as that of a link or of a sparse file may. */
  predicate Overstated(h: Header) {
    h.Header? && KnownName(h.name) && h.name != MANIFEST_PATH && h.size > h.data
  }

  /** No header that the scan meets is overstated. */
  predicate HonestScan(k: Codec, c: Cursor)
    decreases |c.rest|
  {
    && !Overstated(NextHeader(k, c.rest))
    && (AdvanceSpec(k, c).More? ==> HonestScan(k, AdvanceSpec(k, c).cursor))
  }

  lemma RecordBelow(entries: map<string, Section>, off: nat, name: string, sec: Section, off': nat)
    requires Below(entries, off) && off <= sec.off && off <= off'
    requires name != MANIFEST_PATH ==> sec.off + sec.size <= off'
    ensures Below(entries[name := sec], off')
  {
  }

  lemma BelowFurther(entries: map<string, Section>, off: nat, off': nat)
    requires Below(entries, off) && off <= off'
    ensures Below(entries, off')
  {
  }

  lemma AdvanceBelow(k: Codec, c: Cursor)
    requires Below(c.entries, c.off) && !Overstated(NextHeader(k, c.rest))
    ensures var a := AdvanceSpec(k, c);
            match a
            case Done(scan) => scan.Scanned? ==> Below(scan.entries, c.off + |c.rest|)
            case More(c') => Below(c'.entries, c'.off)
  {
    hide NextHeader, Below, Pad;
    BelowFurther(c.entries, c.off, c.off + |c.rest|);
    var h := NextHeader(k, c.rest);
    if h.Header? && KnownName(h.name) && h.len + h.data <= |c.rest| {
      RecordBelow(c.entries, c.off, h.name, Section(c.off + h.len, h.size),
                  Past(k, c, h.name, h.size, h.len, h.data).off);
    }
  }

  lemma {:induction false} ScanIsSafe(k: Codec, c: Cursor)
    requires Below(c.entries, c.off) && HonestScan(k, c)
    ensures ScanSpec(k, c).Scanned? ==> Below(ScanSpec(k, c).entries, c.off + |c.rest|)
    decreases |c.rest|
  {
    hide AdvanceSpec, Below, Overstated;
    AdvanceBelow(k, c);
    if AdvanceSpec(k, c).More? {
      ScanIsSafe(k, AdvanceSpec(k, c).cursor);
    }
  }

  lemma {:induction false} ScanKnows(k: Codec, c: Cursor)
    requires forall n :: n in c.entries ==> KnownName(n)
    ensures ScanSpec(k, c).Scanned? ==> forall n :: n in ScanSpec(k, c).entries ==> KnownName(n)
    decreases |c.rest|
  {
    hide NextHeader, KnownName;
    if AdvanceSpec(k, c).More? {
      ScanKnows(k, AdvanceSpec(k, c).cursor);
    }
  }

  /** Whatever the bytes: if Open accepts them, volume names are valid and distinct and every volume has an entry of its
      recorded size. If no header overstates its data, all sections lie inside the file without overlapping. */
  lemma OpenIsSafe(k: Codec, file: Bytes)
    requires OpenSpec(k, file).Some?
    ensures CheckedReader(OpenSpec(k, file).value) && OpenSpec(k, file).value.file == file
    ensures HonestScan(k, Cursor(file, 0, map[], None)) ==> SectionsSafe(OpenSpec(k, file).value)
  {
    hide ScanSpec, HonestScan, ValidName, IsVolumeEntry;
    ScanKnows(k, Cursor(file, 0, map[], None));
    var r := OpenSpec(k, file).value;
    forall n | n in r.entries ensures n == "manifest.yaml" || n == "README.md" || NamesVolume(n) {
      if IsVolumeEntry(n) {
        var name := VolumeEntryIsPath(n);
      }
    }
    forall v | v in r.m.volumes ensures CheckedVolume(r, v) {
      var i :| 0 <= i < |r.m.volumes| && r.m.volumes[i] == v;
    }
    if HonestScan(k, Cursor(file, 0, map[], None)) {
      ScanIsSafe(k, Cursor(file, 0, map[], None));
    }
  }

  /** The guard that Open lacks, exactly: its sections are safe for every file it accepts if and only if the tar reader
      never reports a header that overstates its data. */
  lemma SafeExactlyIfHonest(k: Codec)
    requires Lawful(k)
    ensures (forall file :: OpenSpec(k, file).Some? ==> SectionsSafe(OpenSpec(k, file).value))
            <==> (forall b :: !Overstated(NextHeader(k, b)))
  {
    hide OpenSpec, NextHeader, SectionsSafe, Lawful;
    if forall b :: !Overstated(NextHeader(k, b)) {
      forall file | OpenSpec(k, file).Some? ensures SectionsSafe(OpenSpec(k, file).value) {
        HonestEverywhere(k, Cursor(file, 0, map[], None));
        OpenIsSafe(k, file);
      }
    } else {
      var b :| Overstated(NextHeader(k, b));
      OverstatedBreaks(k, b);
      assert OpenSpec(k, BreakingFile(k, b)).Some? && !SectionsSafe(OpenSpec(k, BreakingFile(k, b)).value);
    }
  }

  lemma {:induction false} HonestEverywhere(k: Codec, c: Cursor)
    requires forall b :: !Overstated(NextHeader(k, b))
    ensures HonestScan(k, c)
    decreases |c.rest|
  {
    hide NextHeader, Overstated, AdvanceSpec;
    if AdvanceSpec(k, c).More? {
      HonestEverywhere(k, AdvanceSpec(k, c).cursor);
    }
  }

  const NOTHING := Manifest(FORMAT_VERSION, "", 0, "", "", "", [])

  /** A manifest without volumes, then an entry with the header at the start of b and exactly the data that follows
      it. */
  function BreakingFile(k: Codec, b: Bytes): Bytes
    requires NextHeader(k, b).Header?
  {
    PrintItem(k, Item(MANIFEST_PATH, k.yaml(NOTHING))) + (b[..NextHeader(k, b).len] + Zeros(NextHeader(k, b).data))
  }

  /** Open accepts that file, although the last section goes beyond its end. */
  lemma OverstatedBreaks(k: Codec, b: Bytes)
    requires Lawful(k) && Overstated(NextHeader(k, b))
    ensures OpenSpec(k, BreakingFile(k, b)).Some? && !SectionsSafe(OpenSpec(k, BreakingFile(k, b)).value)
  {
    hide KnownName, PrintItem, NextHeader, Pad, Below;
    var h, file, it := NextHeader(k, b), BreakingFile(k, b), Item(MANIFEST_PATH, k.yaml(NOTHING));
    var last := b[..h.len] + Zeros(h.data);
    var c, full := Cursor(file, 0, map[], None), |PrintItem(k, it)|;
    KnownManifest();
    assert file == (PrintItem(k, it) + last)[..|file|];
    WholeItem(k, it, last, |file|, c);
    assert last[..|last|] == last;
    var c1 := AdvanceSpec(k, c).cursor;
    assert c1.rest == last && c1.off == full && c1.manifest == Some(it.data);
    HeaderAgain(k, b, h.data);
    AtTheEnd(k, c1, h);
    assert ScanSpec(k, c) == ScanSpec(k, c1);
    var r := Reader(NOTHING, ScanSpec(k, c).entries, file);
    assert OpenSpec(k, file) == Some(r) by { OpenNothing(k, file); }
    assert r.entries[h.name].off + r.entries[h.name].size > |file|;
    assert !SectionsSafe(r) by { NotBelow(r.entries, h.name, |file|); }
  }

  lemma KnownManifest()
    ensures KnownName(MANIFEST_PATH)
  {
  }

  lemma NotBelow(entries: map<string, Section>, name: string, off: nat)
    requires name in entries && name != MANIFEST_PATH && entries[name].off + entries[name].size > off
    ensures !Below(entries, off)
  {
  }

  lemma OpenNothing(k: Codec, file: Bytes)
    requires Lawful(k)
    requires var scan := ScanSpec(k, Cursor(file, 0, map[], None));
             scan.Scanned? && scan.manifest == Some(k.yaml(NOTHING))
    ensures OpenSpec(k, file) == Some(Reader(NOTHING, ScanSpec(k, Cursor(file, 0, map[], None)).entries, file))
  {
    hide ScanSpec, HeaderLaw, ParseLaw, TarLaw, ZstdLaw, ChopLaw;
  }

  lemma HeaderAgain(k: Codec, b: Bytes, n: nat)
    requires ParseLaw(k) && NextHeader(k, b).Header?
    ensures NextHeader(k, b[..NextHeader(k, b).len] + Zeros(n)) == NextHeader(k, b)
  {
    var again := b[..k.parse(b).len] + Zeros(n);
    assert again[..BLOCK] == b[..BLOCK];
  }

  /** A last entry whose padding is missing is recorded, and then the scan is over. */
  lemma AtTheEnd(k: Codec, c: Cursor, h: Header)
    requires h == NextHeader(k, c.rest) && h.Header? && KnownName(h.name) && h.name != MANIFEST_PATH
    requires |c.rest| == h.len + h.data
    ensures ScanSpec(k, c) == Scanned(c.entries[h.name := Section(c.off + h.len, h.size)], c.manifest)
  {
    hide KnownName, Pad;
    var next := AdvanceSpec(k, c).cursor;
    assert next.rest == [];
    EmptyScan(k, next);
  }

  // ---------- reading what was printed ----------

  /** The cursor behind complete items, of which rest is what follows. */
  function After(k: Codec, items: seq<Item>, c: Cursor, rest: Bytes): Cursor
    decreases |items|
  {
    if items == [] then c.(rest := rest) else After(k, items[1..], AfterOne(k, items[0], c), rest)
  }

  function AfterOne(k: Codec, it: Item, c: Cursor): Cursor {
    Cursor([], c.off + |PrintItem(k, it)|,
           c.entries[it.name := Section(c.off + |k.header(it.name, |it.data|)|, |it.data|)],
           if it.name == MANIFEST_PATH then Some(it.data) else c.manifest)
  }

  /** Where the data of item i starts. */
  function DataStart(k: Codec, items: seq<Item>, i: nat): nat
    requires i < |items|
  {
    if i == 0 then |k.header(items[0].name, |items[0].data|)|
    else |PrintItem(k, items[0])| + DataStart(k, items[1..], i - 1)
  }

  /** Data starts at a block boundary, as every reader of the format expects. */
  lemma {:induction false} DataStartsAtBlock(k: Codec, items: seq<Item>, i: nat)
    requires HeaderLaw(k) && (forall it :: it in items ==> KnownName(it.name)) && i < |items|
    ensures DataStart(k, items, i) % BLOCK == 0
  {
    hide KnownName, PrintItem, HeaderLaw;
    if i > 0 {
      PrintedInBlocks(k, items[0]);
      DataStartsAtBlock(k, items[1..], i - 1);
      BlocksAddUp(|PrintItem(k, items[0])|, DataStart(k, items[1..], i - 1));
    } else {
      WholeHeader(k, items[0].name, |items[0].data|);
    }
  }

  /** The outcome of scanning a prefix of a printed archive that holds the data of the first seen items. */
  ghost predicate SawItems(k: Codec, items: seq<Item>, seen: nat, c: Cursor, scan: Scan)
    requires seen <= |items|
  {
    var end := After(k, items[..seen], c, []);
    scan.Malformed? || scan == Scanned(end.entries, end.manifest)
  }

  /** The scan of any prefix of a printed archive fails or stops after some complete items, all of whose data is in the
      prefix; the scan of the whole archive succeeds and sees every item. */
  lemma {:induction false} PrefixScan(k: Codec, items: seq<Item>, n: nat, c: Cursor)
    returns (seen: nat)
    requires HeaderLaw(k) && (forall it :: it in items ==> KnownName(it.name))
    requires n <= |PrintAll(k, items) + TRAILER| && c.rest == (PrintAll(k, items) + TRAILER)[..n]
    ensures seen <= |items|
    ensures forall i :: 0 <= i < seen ==> DataStart(k, items, i) + |items[i].data| <= n
    ensures SawItems(k, items, seen, c, ScanSpec(k, c))
    ensures HonestScan(k, c)
    ensures n == |PrintAll(k, items) + TRAILER| ==> ScanSpec(k, c).Scanned? && seen == |items|
    decreases |items|
  {
    hide NextHeader, KnownName, PrintItem, AdvanceSpec, Past, Pad, HeaderLaw, Overstated;
    if items == [] {
      seen := 0;
      assert c.rest == TRAILER[..n];
      assert n == |TRAILER| ==> c.rest == TRAILER;
      TrailerScan(k, c);
    } else {
      var it, more := items[0], PrintAll(k, items[1..]) + TRAILER;
      var full := |PrintItem(k, it)|;
      assert PrintAll(k, items) + TRAILER == PrintItem(k, it) + more;
      if n < |k.header(it.name, |it.data|)| + |it.data| {
        seen := 0;
        CutItem(k, it, more, n, c);
        assert SawItems(k, items, seen, c, ScanSpec(k, c));
      } else {
        WholeItem(k, it, more, n, c);
        var next := AfterOne(k, it, c);
        if n <= full {
          seen := 1;
          assert items[..1][1..] == [];
          EmptyScan(k, AdvanceSpec(k, c).cursor);
          assert After(k, items[..1], c, []) == next;
          assert ScanSpec(k, c) == Scanned(next.entries, next.manifest);
          assert SawItems(k, items, seen, c, ScanSpec(k, c));
        } else {
          var j := PrefixScan(k, items[1..], n - full, next.(rest := more[..n - full]));
          seen := j + 1;
          assert items[..seen][1..] == items[1..][..j];
          AfterRest(k, items[1..][..j], next, more[..n - full]);
          assert AdvanceSpec(k, c).cursor == next.(rest := more[..n - full]);
          assert After(k, items[..seen], c, []) == After(k, items[1..][..j], next, []);
          assert SawItems(k, items, seen, c, ScanSpec(k, c));
        }
      }
    }
  }

  lemma {:induction false} AfterRest(k: Codec, items: seq<Item>, c: Cursor, rest: Bytes)
    ensures After(k, items, c.(rest := rest), []) == After(k, items, c, [])
  {
    if items != [] {
      assert AfterOne(k, items[0], c.(rest := rest)) == AfterOne(k, items[0], c);
    }
  }

  lemma EmptyScan(k: Codec, c: Cursor)
    requires c.rest == []
    ensures ScanSpec(k, c) == Scanned(c.entries, c.manifest) && HonestScan(k, c)
  {
  }

  /** Cut inside the trailer: the end, or an error. */
  lemma TrailerScan(k: Codec, c: Cursor)
    requires c.rest <= TRAILER
    ensures AdvanceSpec(k, c).Done?
            && (AdvanceSpec(k, c).scan.Malformed? || AdvanceSpec(k, c).scan == Scanned(c.entries, c.manifest))
    ensures c.rest == TRAILER ==> AdvanceSpec(k, c).scan.Scanned?
    ensures !Overstated(NextHeader(k, c.rest))
  {
    var n := |c.rest|;
    assert c.rest == TRAILER[..n];
    if n >= BLOCK {
      assert ZeroBlock(c.rest[..BLOCK]);
    }
    if n == |TRAILER| {
      assert ZeroBlock(c.rest[BLOCK..2 * BLOCK]);
    }
  }

  /** Cut inside the header or the data of an item: the end there, or an error. */
  lemma CutItem(k: Codec, it: Item, more: Bytes, n: nat, c: Cursor)
    requires HeaderLaw(k) && KnownName(it.name)
    requires n < |k.header(it.name, |it.data|)| + |it.data| && c.rest == (PrintItem(k, it) + more)[..n]
    ensures !Overstated(NextHeader(k, c.rest))
    ensures AdvanceSpec(k, c).Done?
            && (AdvanceSpec(k, c).scan.Malformed? || AdvanceSpec(k, c).scan == Scanned(c.entries, c.manifest))
  {
    hide KnownName, Pad;
    var head := k.header(it.name, |it.data|);
    if n >= |head| {
      assert c.rest == head + c.rest[|head|..];
      assert c.rest[..BLOCK] == head[..BLOCK];
    } else if n >= BLOCK {
      assert c.rest == head[..n];
      assert c.rest[..BLOCK] == head[..BLOCK];
    }
  }

  /** A scan gets over one printed item whose data is complete, and records it. */
  lemma WholeItem(k: Codec, it: Item, more: Bytes, n: nat, c: Cursor)
    requires HeaderLaw(k) && KnownName(it.name)
    requires |k.header(it.name, |it.data|)| + |it.data| <= n <= |PrintItem(k, it) + more|
    requires c.rest == (PrintItem(k, it) + more)[..n]
    ensures var full := |PrintItem(k, it)|;
            AdvanceSpec(k, c) == More(AfterOne(k, it, c).(off := c.off + Min(full, n),
                                                      rest := if n <= full then [] else more[..n - full]))
    ensures !Overstated(NextHeader(k, c.rest))
  {
    hide Pad, NextHeader, PrintItem, KnownName, HeaderLaw, Past;
    HeadOf(k, it, more, n, c.rest);
    ContentOf(k, it, more, n, c.rest);
    PastItem(k, it, more, n, c);
  }

  lemma PastItem(k: Codec, it: Item, more: Bytes, n: nat, c: Cursor)
    requires HeaderLaw(k) && KnownName(it.name)
    requires |k.header(it.name, |it.data|)| + |it.data| <= n <= |PrintItem(k, it) + more|
    requires c.rest == (PrintItem(k, it) + more)[..n]
    ensures var full := |PrintItem(k, it)|;
            Past(k, c, it.name, |it.data|, |k.header(it.name, |it.data|)|, |it.data|)
            == AfterOne(k, it, c).(off := c.off + Min(full, n), rest := if n <= full then [] else more[..n - full])
  {
    hide Pad, HeaderLaw, KnownName, PrintItem;
    var full := |PrintItem(k, it)|;
    ContentOf(k, it, more, n, c.rest);
    RestOf(PrintItem(k, it), more, n);
    assert full == |k.header(it.name, |it.data|)| + |it.data| + Pad(|it.data|);
  }

  lemma RestOf(first: Bytes, more: Bytes, n: nat)
    requires n <= |first + more|
    ensures (first + more)[..n][Min(|first|, n)..] == if n <= |first| then [] else more[..n - |first|]
  {
  }

  lemma ContentLaw(k: Codec, name: string, data: Bytes)
    requires HeaderLaw(k) && KnownName(name)
    ensures k.content(k.header(name, |data|), data) == Some(data)
  {
  }

  /** The data of a printed item is read back. */
  lemma ContentOf(k: Codec, it: Item, more: Bytes, n: nat, rest: Bytes)
    requires HeaderLaw(k) && KnownName(it.name)
    requires |k.header(it.name, |it.data|)| + |it.data| <= n <= |PrintItem(k, it) + more|
    requires rest == (PrintItem(k, it) + more)[..n]
    ensures var len := |k.header(it.name, |it.data|)|;
            k.content(rest[..len], rest[len..len + |it.data|]) == Some(it.data)
  {
    hide Pad, KnownName, PrintItem, HeaderLaw;
    var head := k.header(it.name, |it.data|);
    ContentLaw(k, it.name, it.data);
    PrintedData(k, it, more);
    CutSlice(PrintItem(k, it) + more, n, |head|, |it.data|);
    CutSlice(PrintItem(k, it) + more, n, 0, |head|);
  }

  lemma HeadOf(k: Codec, it: Item, more: Bytes, n: nat, rest: Bytes)
    requires HeaderLaw(k) && KnownName(it.name)
    requires |k.header(it.name, |it.data|)| + |it.data| <= n <= |PrintItem(k, it) + more|
             && rest == (PrintItem(k, it) + more)[..n]
    ensures NextHeader(k, rest) == Header(it.name, |it.data|, |k.header(it.name, |it.data|)|, |it.data|)
  {
    hide KnownName, Pad;
    var head := k.header(it.name, |it.data|);
    assert rest == head + rest[|head|..];
    assert rest[..BLOCK] == head[..BLOCK];
  }

  // ---------- what an archive means ----------

  ghost predicate DistinctNames(items: seq<Item>) {
    forall i, j :: 0 <= i < j < |items| ==> items[i].name != items[j].name
  }

  lemma {:induction false} AfterKeeps(k: Codec, items: seq<Item>, c: Cursor, name: string)
    requires forall it :: it in items ==> it.name != name
    ensures var end := After(k, items, c, []);
            && (name in end.entries <==> name in c.entries)
            && (name in c.entries ==> end.entries[name] == c.entries[name])
            && (name == MANIFEST_PATH ==> end.manifest == c.manifest)
  {
    if items != [] {
      AfterKeeps(k, items[1..], AfterOne(k, items[0], c), name);
    }
  }

  lemma {:induction false} AfterRecords(k: Codec, items: seq<Item>, i: nat, c: Cursor)
    requires i < |items| && DistinctNames(items)
    ensures var end := After(k, items, c, []); var it := items[i];
            && it.name in end.entries
            && end.entries[it.name] == Section(c.off + DataStart(k, items, i), |it.data|)
            && (it.name == MANIFEST_PATH ==> end.manifest == Some(it.data))
  {
    var next := AfterOne(k, items[0], c);
    if i == 0 {
      AfterKeeps(k, items[1..], next, items[0].name);
    } else {
      AfterRecords(k, items[1..], i - 1, next);
    }
  }

  lemma {:induction false} DataStartPrefix(k: Codec, items: seq<Item>, j: nat, i: nat)
    requires i < j <= |items|
    ensures DataStart(k, items[..j], i) == DataStart(k, items, i)
  {
    if i != 0 {
      assert items[..j][1..] == items[1..][..j - 1];
      DataStartPrefix(k, items[1..], j - 1, i - 1);
    }
  }

  lemma {:induction false} DataAt(k: Codec, items: seq<Item>, tail: Bytes, i: nat)
    requires i < |items|
    ensures var file := PrintAll(k, items) + tail; var at := DataStart(k, items, i);
            at + |items[i].data| <= |file| && file[at..at + |items[i].data|] == items[i].data
  {
    hide Pad, PrintItem;
    var first, more := PrintItem(k, items[0]), PrintAll(k, items[1..]) + tail;
    var file := PrintAll(k, items) + tail;
    assert file == first + more;
    if i == 0 {
      PrintedData(k, items[0], more);
    } else {
      DataAt(k, items[1..], tail, i - 1);
      var at := DataStart(k, items[1..], i - 1);
      SliceBehind(first, more, at, |items[i].data|);
    }
  }

  lemma PrintedData(k: Codec, it: Item, more: Bytes)
    ensures var at := |k.header(it.name, |it.data|)|;
            && (PrintItem(k, it) + more)[0..at] == k.header(it.name, |it.data|)
            && (PrintItem(k, it) + more)[at..at + |it.data|] == it.data
  {
    var head := k.header(it.name, |it.data|);
    assert PrintItem(k, it) + more == head + (it.data + (Zeros(Pad(|it.data|)) + more));
  }

  lemma CutSlice(s: Bytes, n: nat, from: nat, len: nat)
    requires from + len <= n <= |s|
    ensures s[..n][from..from + len] == s[from..from + len]
  {
  }

  lemma SliceBehind(first: Bytes, more: Bytes, at: nat, n: nat)
    requires at + n <= |more|
    ensures (first + more)[|first| + at..|first| + at + n] == more[at..at + n]
  {
  }

  /** A manifest that describes the compressed volumes zs. */
  ghost predicate Describes(k: Codec, m: Manifest, zs: seq<Bytes>) {
    && |zs| == |m.volumes|
    && m.formatVersion == FORMAT_VERSION
    && (forall i :: 0 <= i < |zs| ==>
          && ValidName(m.volumes[i].name)
          && m.volumes[i].archive == Entry(VolumePath(m.volumes[i].name), |zs[i]|, k.sha(zs[i])))
    && (forall i, j :: 0 <= i < j < |zs| ==> m.volumes[i].name != m.volumes[j].name)
  }

  /** The reader serves exactly this manifest and these volumes, and every one of them verifies. */
  ghost predicate Serves(k: Codec, r: Reader, m: Manifest, zs: seq<Bytes>)
    requires |zs| == |m.volumes|
  {
    && r.m == m
    && forall i :: 0 <= i < |zs| ==>
         && Stored(r, m.volumes[i]) == zs[i]
         && VerifySpec(k, r, m.volumes[i].name).None?
         && OpenVolumeSpec(k, r, m.volumes[i].name) == k.expand(zs[i])
  }

  lemma ItemsFacts(k: Codec, m: Manifest, zs: seq<Bytes>)
    requires Describes(k, m, zs)
    ensures DistinctNames(Items(k, m, zs))
    ensures forall it :: it in Items(k, m, zs) ==> KnownName(it.name)
  {
    var items := Items(k, m, zs);
    forall i | 0 <= i < |items|
      ensures KnownName(items[i].name)
      ensures i < |zs| ==> items[i].name != MANIFEST_PATH && items[i].name != README_PATH
    {
      if i < |zs| {
        VolumePaths(m.volumes[i].name, m.volumes[i].name);
      }
    }
    forall i, j | 0 <= i < j < |items|
      ensures items[i].name != items[j].name
    {
      if j < |zs| {
        VolumePaths(m.volumes[i].name, m.volumes[j].name);
      } else if i == |zs| {
        assert MANIFEST_PATH[0] != README_PATH[0];
      }
    }
  }

  /** Print then parse, whole or cut short. A complete archive opens and serves exactly what was written. Any prefix of
      it either does not open or also serves every volume of the full manifest: a cut archive never looks complete. */
  lemma OpenPrefix(k: Codec, m: Manifest, zs: seq<Bytes>, n: nat)
    requires Lawful(k) && Describes(k, m, zs) && n <= |Image(k, m, zs)|
    ensures var r := OpenSpec(k, Image(k, m, zs)[..n]);
            && (r.Some? ==> Serves(k, r.value, m, zs) && SectionsSafe(r.value))
            && (n == |Image(k, m, zs)| ==> r.Some?)
  {
    hide PrintAll, Items, KnownName, HeaderLaw, ScanSpec, TarLaw, ZstdLaw, ChopLaw, ValidName, VolumePath, Describes,
      Serves, ParseSpec, EntriesMatch, DataStart, DistinctNames, HonestScan;
    assert |m.volumes| == |zs| by { DescribesLength(k, m, zs); }
    var items, file := Items(k, m, zs), Image(k, m, zs)[..n];
    var c := Cursor(file, 0, map[], None);
    ItemsFacts(k, m, zs);
    var seen := PrefixScan(k, items, n, c);
    var scan := ScanSpec(k, c);
    ItemsAt(k, m, zs);
    if scan.Scanned? {
      if seen <= |zs| {
        AfterKeeps(k, items[..seen], c, MANIFEST_PATH);
      } else {
        AfterRecords(k, items[..seen], |zs|, c);
        assert scan.manifest == Some(k.yaml(m));
        StoredItems(k, m, zs, n, seen);
        ServesAll(k, Reader(m, scan.entries, file), m, zs);
        ScanIsSafe(k, c);
        assert ParseSpec(k, k.yaml(m)) == Some(m) by { ParsePrinted(k, m, zs); }
      }
    }
  }

  lemma ParsePrinted(k: Codec, m: Manifest, zs: seq<Bytes>)
    requires Lawful(k) && Describes(k, m, zs)
    ensures ParseSpec(k, k.yaml(m)) == Some(m)
  {
    hide HeaderLaw, TarLaw, ZstdLaw, ChopLaw, ValidName, VolumePath;
  }

  lemma ItemsAt(k: Codec, m: Manifest, zs: seq<Bytes>)
    requires Describes(k, m, zs)
    ensures var items := Items(k, m, zs);
            && |items| == |zs| + 2
            && items[|zs|] == Item(MANIFEST_PATH, k.yaml(m))
            && (forall i :: 0 <= i < |zs| ==>
                  items[i] == Item(m.volumes[i].archive.path, zs[i]) && items[i].name != MANIFEST_PATH)
  {
    forall i | 0 <= i < |zs| { VolumePaths(m.volumes[i].name, m.volumes[i].name); }
  }

  /** Once the manifest was seen, all volumes before it were, and each section holds its stream. */
  lemma StoredItems(k: Codec, m: Manifest, zs: seq<Bytes>, n: nat, seen: nat)
    requires Describes(k, m, zs) && n <= |Image(k, m, zs)| && |zs| < seen <= |zs| + 2
    requires DistinctNames(Items(k, m, zs))
    requires forall i :: 0 <= i < seen ==> DataStart(k, Items(k, m, zs), i) + |Items(k, m, zs)[i].data| <= n
    ensures var file := Image(k, m, zs)[..n];
            var entries := After(k, Items(k, m, zs)[..seen], Cursor(file, 0, map[], None), []).entries;
            && EntriesMatch(m.volumes, entries)
            && forall i :: 0 <= i < |zs| ==> Stored(Reader(m, entries, file), m.volumes[i]) == zs[i]
  {
    hide PrintAll, Items, After, DataStart, Stored, DistinctNames, Image, Describes;
    assert |m.volumes| == |zs| by { DescribesLength(k, m, zs); }
    ItemsAt(k, m, zs);
    var file := Image(k, m, zs)[..n];
    var entries := After(k, Items(k, m, zs)[..seen], Cursor(file, 0, map[], None), []).entries;
    forall i | 0 <= i < |zs|
      ensures var v := m.volumes[i];
              && v.archive.path in entries && entries[v.archive.path].size == v.archive.sizeBytes
              && Stored(Reader(m, entries, file), v) == zs[i]
    {
      StoredItem(k, m, zs, n, seen, i);
    }
  }

  lemma DescribesLength(k: Codec, m: Manifest, zs: seq<Bytes>)
    requires Describes(k, m, zs)
    ensures |m.volumes| == |zs|
  {
  }

  lemma StoredItem(k: Codec, m: Manifest, zs: seq<Bytes>, n: nat, seen: nat, i: nat)
    requires Describes(k, m, zs) && n <= |Image(k, m, zs)| && i < |zs| < seen <= |zs| + 2
    requires DistinctNames(Items(k, m, zs)) && DataStart(k, Items(k, m, zs), i) + |zs[i]| <= n
    ensures var items, file := Items(k, m, zs), Image(k, m, zs)[..n]; var v := m.volumes[i];
            var entries := After(k, items[..seen], Cursor(file, 0, map[], None), []).entries;
            && v.archive.path in entries && entries[v.archive.path].size == v.archive.sizeBytes
            && Stored(Reader(m, entries, file), v) == zs[i]
  {
    hide PrintAll, Items, KnownName;
    ItemsAt(k, m, zs);
    var items, file := Items(k, m, zs), Image(k, m, zs)[..n];
    assert items[..seen][i] == items[i];
    AfterRecords(k, items[..seen], i, Cursor(file, 0, map[], None));
    DataStartPrefix(k, items, seen, i);
    DataAt(k, items, TRAILER, i);
    var at := DataStart(k, items, i);
    assert file[at..at + |zs[i]|] == Image(k, m, zs)[at..at + |zs[i]|];
  }

  lemma ServesAll(k: Codec, r: Reader, m: Manifest, zs: seq<Bytes>)
    requires Describes(k, m, zs) && r.m == m
    requires forall i :: 0 <= i < |zs| ==> Stored(r, m.volumes[i]) == zs[i]
    ensures Serves(k, r, m, zs)
  {
    forall i | 0 <= i < |zs|
      ensures VerifySpec(k, r, m.volumes[i].name).None?
      ensures OpenVolumeSpec(k, r, m.volumes[i].name) == k.expand(zs[i])
    {
      FindByIndex(m.volumes, i);
    }
  }

  // ---------- the code of the reader ----------

  /** Reads headers until the end, remembering where each entry's data lies and the bytes of the manifest. */
  method Scanning(k: Codec, file: Bytes) returns (scan: Scan)
    ensures scan == ScanSpec(k, Cursor(file, 0, map[], None))
  {
    hide NextHeader, KnownName, Pad, ZeroBlock, Past;
    var entries: map<string, Section> := map[];
    var manifest: Option<Bytes> := None;
    var pos := 0;
    assert file[0..] == file;
    while true
      invariant 0 <= pos <= |file|
      invariant ScanSpec(k, Cursor(file, 0, map[], None)) == ScanSpec(k, Cursor(file[pos..], pos, entries, manifest))
      decreases |file| - pos
    {
      var rest := file[pos..];
      ghost var c := Cursor(rest, pos, entries, manifest);
      match NextHeader(k, rest) {
        case End =>
          return Scanned(entries, manifest);
        case Bad =>
          return Malformed;
        case Header(name, size, len, data) =>
          if !KnownName(name) || len + data > |rest| {
            return Malformed;
          }
          if name == MANIFEST_PATH {
            var content := k.content(rest[..len], rest[len..len + data]);
            if content.None? {
              return Malformed;
            }
            manifest := content;
          }
          PastInFile(k, file, c, name, size, len, data);
          entries := entries[name := Section(pos + len, size)];
          pos := pos + Min(len + data + Pad(data), |rest|);
          assert AdvanceSpec(k, c) == More(Past(k, c, name, size, len, data));
      }
    }
  }

  lemma PastInFile(k: Codec, file: Bytes, c: Cursor, name: string, size: nat, len: nat, data: nat)
    requires c.off <= |file| && c.rest == file[c.off..] && len + data <= |c.rest|
    ensures var used := Min(len + data + Pad(data), |c.rest|);
            Past(k, c, name, size, len, data)
            == Cursor(file[c.off + used..], c.off + used, c.entries[name := Section(c.off + len, size)],
                      if name == MANIFEST_PATH then k.content(c.rest[..len], c.rest[len..len + data]) else c.manifest)
  {
    hide Pad;
  }

  method Open(k: Codec, file: Bytes) returns (reader: Option<Reader>)
    ensures reader == OpenSpec(k, file)
  {
    hide ScanSpec, ParseSpec;
    var scan := Scanning(k, file);
    if scan.Malformed? || scan.manifest.None? {
      return None;
    }
    var m := Parse(k, scan.manifest.value);
    if m.None? {
      return None;
    }
    var vols := m.value.volumes;
    for i := 0 to |vols|
      invariant EntriesMatch(vols[..i], scan.entries)
    {
      if vols[i].archive.path !in scan.entries || scan.entries[vols[i].archive.path].size != vols[i].archive.sizeBytes {
        return None;
      }
    }
    assert vols[..|vols|] == vols;
    return Some(Reader(m.value, scan.entries, file));
  }

  method Parse(k: Codec, data: Bytes) returns (m: Option<Manifest>)
    ensures m == ParseSpec(k, data)
  {
    m := k.unyaml(data);
    if m.None? || m.value.formatVersion != FORMAT_VERSION {
      return None;
    }
    var err := Validate(m.value.volumes);
    if err.Some? {
      return None;
    }
  }
}
