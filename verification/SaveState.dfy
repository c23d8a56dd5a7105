// The save-state container (snapshot.cpp): framing, the load-time gates, and what a load restores.
module SaveState {
  import opened ByteStreams
  import Words
  import opened Cpu
  import opened RuntimeOps
  import opened Runtime

  // ----- Format --------------------------------------------------------------------------------

  const MAGIC: Bytes := [0x47, 0x42, 0x41, 0x53]
  const VERSION: bv32 := 2
  const SHA_LENGTH: nat := 40
  const HEADER: nat := 52

  /** A FourCC section tag. */
  datatype Tag = Tag(w: bv32)

  const CPU_TAG: Tag := Tag(0x3055_5043)
  const BUS_TAG: Tag := Tag(0x3053_5542)
  const IO_TAG: Tag := Tag(0x305F_4F49)
  const AUDIO_TAG: Tag := Tag(0x3044_5541)
  const SAVE_TAG: Tag := Tag(0x3056_4153)
  const PPU_TAG: Tag := Tag(0x3055_5050)
  const META_TAG: Tag := Tag(0x4154_454D)

  const REQUIRED: seq<Tag> := [CPU_TAG, BUS_TAG, IO_TAG, AUDIO_TAG, SAVE_TAG, PPU_TAG]

  datatype Section = Section(tag: Tag, payload: Bytes)

  /** fill_rom_sha1: at most 40 characters, zero-padded. */
  function FillSha(sha: Bytes): (b: Bytes)
    ensures |b| == SHA_LENGTH
  {
    if |sha| >= SHA_LENGTH then sha[..SHA_LENGTH] else sha + Zeros(SHA_LENGTH - |sha|)
  }

  /** add_section. */
  function Framed(s: Section): (b: Bytes)
    ensures |b| == 8 + |s.payload|
  {
    Le32(s.tag.w) + Le32(Size32(|s.payload|)) + s.payload
  }

  function AllFramed(ss: seq<Section>): Bytes {
    if ss == [] then [] else Framed(ss[0]) + AllFramed(ss[1..])
  }

  function Header(sha: Bytes, count: nat): (b: Bytes)
    ensures |b| == HEADER
  {
    MAGIC + Le32(VERSION) + FillSha(sha) + Le32(Size32(count))
  }

  /** The container of these sections. */
  function File(sha: Bytes, ss: seq<Section>): Bytes {
    Header(sha, |ss|) + AllFramed(ss)
  }

  // ----- Parsing ---------------------------------------------------------------------------------

  datatype LoadError = BadMagic | BadVersion | WrongRom | TruncatedHeader | TruncatedSection | Overrun | MissingSection

  datatype Span = Span(off: nat, len: nat)

  datatype Parsed = Sections(spans: map<Tag, Span>) | Rejected(error: LoadError)

  /** The section loop from `cursor`, with `count` sections to go. */
  function Scan(blob: Bytes, cursor: nat, count: nat, spans: map<Tag, Span>): Parsed
    decreases count
  {
    if count == 0 then Sections(spans) else
    var (tag, c1) := Take32(Cursor(blob, cursor, true));
    var (len, c2) := Take32(c1);
    if !c2.ok then Rejected(TruncatedSection)
    else if cursor + 8 + Nat32(len) > |blob| then Rejected(Overrun)
    else Scan(blob, cursor + 8 + Nat32(len), count - 1, spans[Tag(tag) := Span(cursor + 8, Nat32(len))])
  }

  predicate HasRequired(spans: map<Tag, Span>) {
    forall t | t in REQUIRED :: t in spans
  }

  /** The gates of load_state, in its order. An empty `want` stands for a host that knows no ROM hash. */
  function Parse(blob: Bytes, want: Bytes): Parsed {
    var (magic, c1) := TakeBytes(Cursor(blob, 0, true), 4);
    if magic != MAGIC then Rejected(BadMagic) else
    var (version, c2) := Take32(c1);
    if version != VERSION then Rejected(BadVersion) else
    var (sha, c3) := TakeBytes(c2, SHA_LENGTH);
    if want != [] && sha != FillSha(want) then Rejected(WrongRom) else
    var (count, c4) := Take32(c3);
    if !c4.ok then Rejected(TruncatedHeader) else
    var scanned := Scan(blob, c4.at, Nat32(count), map[]);
    if scanned.Sections? && !HasRequired(scanned.spans) then Rejected(MissingSection) else scanned
  }

  /** The bytes of a section of an accepted file. */
  function Payload(blob: Bytes, span: Span): Bytes
    requires span.off + span.len <= |blob|
  {
    blob[span.off..span.off + span.len]
  }

  predicate Inside(blob: Bytes, spans: map<Tag, Span>) {
    forall t | t in spans :: spans[t].off + spans[t].len <= |blob|
  }

  lemma {:induction false} ScanInside(blob: Bytes, cursor: nat, count: nat, spans: map<Tag, Span>)
    requires Inside(blob, spans)
    ensures var p := Scan(blob, cursor, count, spans); p.Sections? ==> Inside(blob, p.spans)
    decreases count
  {
    hide Take32, Nat32;
    if count > 0 {
      var (tag, c1) := Take32(Cursor(blob, cursor, true));
      var (len, c2) := Take32(c1);
      if c2.ok && cursor + 8 + Nat32(len) <= |blob| {
        ScanInside(blob, cursor + 8 + Nat32(len), count - 1, spans[Tag(tag) := Span(cursor + 8, Nat32(len))]);
      }
    }
  }

  /** Every span of an accepted file lies inside it. */
  lemma ParseInside(blob: Bytes, want: Bytes)
    ensures var p := Parse(blob, want); p.Sections? ==> Inside(blob, p.spans)
  {
    hide Take32, TakeBytes, Scan, FillSha, Nat32;
    var (magic, c1) := TakeBytes(Cursor(blob, 0, true), 4);
    var (version, c2) := Take32(c1);
    var (sha, c3) := TakeBytes(c2, SHA_LENGTH);
    var (count, c4) := Take32(c3);
    ScanInside(blob, c4.at, Nat32(count), map[]);
  }

  // ----- Reading a container back -------------------------------------------------------------------

  /** What the container needs of its sections: lengths and count that fit their fields. */
  predicate Sized(ss: seq<Section>) {
    |ss| < 0x1_0000_0000 && forall i | 0 <= i < |ss| :: |ss[i].payload| < 0x1_0000_0000
  }

  /** Where the sections lie when the first starts at `cursor`; a later section replaces an earlier one of its tag. */
  function Index(ss: seq<Section>, cursor: nat, spans: map<Tag, Span>): map<Tag, Span> {
    if ss == [] then spans
    else Index(ss[1..], cursor + 8 + |ss[0].payload|, spans[ss[0].tag := Span(cursor + 8, |ss[0].payload|)])
  }

  lemma ReadFrame(blob: Bytes, cursor: nat, s: Section)
    requires Next(Cursor(blob, cursor, true), Le32(s.tag.w) + Le32(Size32(|s.payload|)))
    ensures var (tag, c1) := Take32(Cursor(blob, cursor, true));
            var (len, c2) := Take32(c1);
            tag == s.tag.w && len == Size32(|s.payload|) && c2 == Cursor(blob, cursor + 8, true)
  {
    hide Le32, Take32, Size32, Nat32;
    var c := Cursor(blob, cursor, true);
    NextSplit(c, Le32(s.tag.w), Le32(Size32(|s.payload|)));
    ReadBack32(c, s.tag.w);
    ReadBack32(Cursor(blob, cursor + 4, true), Size32(|s.payload|));
  }

  lemma {:induction false} ScanReadsBack(blob: Bytes, cursor: nat, ss: seq<Section>, spans: map<Tag, Span>)
    requires cursor <= |blob| && blob[cursor..] == AllFramed(ss) && Sized(ss)
    ensures Scan(blob, cursor, |ss|, spans) == Sections(Index(ss, cursor, spans))
    decreases |ss|
  {
    hide Le32, Take32, Size32, Nat32;
    if ss != [] {
      var s := ss[0];
      var frame := Le32(s.tag.w) + Le32(Size32(|s.payload|));
      assert blob[cursor..] == frame + s.payload + AllFramed(ss[1..]);
      assert blob[cursor..][..8] == frame;
      ReadFrame(blob, cursor, s);
      SizeBack(|s.payload|);
      var next := cursor + 8 + |s.payload|;
      assert blob[next..] == blob[cursor..][8 + |s.payload|..];
      ScanReadsBack(blob, next, ss[1..], spans[s.tag := Span(cursor + 8, |s.payload|)]);
    }
  }

  lemma HeaderReads(blob: Bytes, sha: Bytes, count: nat)
    requires |blob| >= HEADER && blob[..HEADER] == Header(sha, count)
    ensures var (magic, c1) := TakeBytes(Cursor(blob, 0, true), 4);
            var (version, c2) := Take32(c1);
            var (fileSha, c3) := TakeBytes(c2, SHA_LENGTH);
            var (n, c4) := Take32(c3);
            magic == MAGIC && version == VERSION && fileSha == FillSha(sha) && n == Size32(count)
            && c4 == Cursor(blob, HEADER, true)
  {
    hide Le32, Take32, FillSha, Size32;
    var h := Header(sha, count);
    assert h == MAGIC + Le32(VERSION) + FillSha(sha) + Le32(Size32(count));
    assert blob[0..4] == h[..4] == MAGIC;
    assert blob[4..8] == h[4..8] == Le32(VERSION);
    assert blob[8..48] == h[8..48] == FillSha(sha);
    assert blob[48..52] == h[48..52] == Le32(Size32(count));
    ReadBack32(Cursor(blob, 4, true), VERSION);
    ReadBack32(Cursor(blob, 48, true), Size32(count));
  }

  /** A saved file is accepted, and parsed into its own sections, exactly if no other ROM is wanted and the
      required sections are there. */
  lemma FileParses(sha: Bytes, ss: seq<Section>, want: Bytes)
    requires Sized(ss)
    ensures Parse(File(sha, ss), want) ==
            if want != [] && FillSha(want) != FillSha(sha) then Rejected(WrongRom)
            else if HasRequired(Index(ss, HEADER, map[])) then Sections(Index(ss, HEADER, map[]))
            else Rejected(MissingSection)
  {
    hide Take32, TakeBytes, Scan, FillSha, Header, AllFramed, HasRequired, Index, Size32, Nat32;
    var blob := File(sha, ss);
    assert blob[..HEADER] == Header(sha, |ss|);
    assert blob[HEADER..] == AllFramed(ss);
    HeaderReads(blob, sha, |ss|);
    SizeBack(|ss|);
    ScanReadsBack(blob, HEADER, ss, map[]);
  }

  // ----- Each section's payload ------------------------------------------------------------------------

  predicate Distinct(ss: seq<Section>) {
    forall i, j | 0 <= i < j < |ss| :: ss[i].tag != ss[j].tag
  }

  lemma {:induction false} IndexKeeps(ss: seq<Section>, cursor: nat, spans: map<Tag, Span>, t: Tag)
    requires forall i | 0 <= i < |ss| :: ss[i].tag != t
    ensures t in Index(ss, cursor, spans) <==> t in spans
    ensures t in spans ==> Index(ss, cursor, spans)[t] == spans[t]
    decreases |ss|
  {
    if ss != [] {
      IndexKeeps(ss[1..], cursor + 8 + |ss[0].payload|, spans[ss[0].tag := Span(cursor + 8, |ss[0].payload|)], t);
    }
  }

  lemma {:induction false} IndexFinds(blob: Bytes, ss: seq<Section>, cursor: nat, spans: map<Tag, Span>, i: nat)
    requires cursor <= |blob| && blob[cursor..] == AllFramed(ss) && Distinct(ss) && i < |ss|
    ensures var m := Index(ss, cursor, spans);
            ss[i].tag in m && m[ss[i].tag].off + m[ss[i].tag].len <= |blob|
            && Payload(blob, m[ss[i].tag]) == ss[i].payload
    decreases |ss|
  {
    hide Le32, Size32;
    var s := ss[0];
    var next := cursor + 8 + |s.payload|;
    var spans' := spans[s.tag := Span(cursor + 8, |s.payload|)];
    assert blob[cursor..] == Framed(s) + AllFramed(ss[1..]);
    assert blob[next..] == blob[cursor..][8 + |s.payload|..];
    if i == 0 {
      IndexKeeps(ss[1..], next, spans', s.tag);
      assert Framed(s)[8..] == s.payload;
      assert blob[cursor + 8..next] == blob[cursor..][8..8 + |s.payload|];
    } else {
      IndexFinds(blob, ss[1..], next, spans', i - 1);
    }
  }

  /** Parsing a saved container recovers each section's exact payload. */
  lemma PayloadsComeBack(sha: Bytes, ss: seq<Section>, want: Bytes, i: nat)
    requires Sized(ss) && Distinct(ss) && i < |ss|
    ensures var blob := File(sha, ss);
            var p := Parse(blob, want);
            p.Sections? ==>
              ss[i].tag in p.spans && p.spans[ss[i].tag].off + p.spans[ss[i].tag].len <= |blob|
              && Payload(blob, p.spans[ss[i].tag]) == ss[i].payload
  {
    hide Parse, Header, AllFramed, Payload, HasRequired, Index, FillSha;
    var blob := File(sha, ss);
    FileParses(sha, ss, want);
    assert blob[HEADER..] == AllFramed(ss);
    IndexFinds(blob, ss, HEADER, map[], i);
  }

  // ----- Truncation --------------------------------------------------------------------------------------

  /** A file shorter than its header is rejected, whatever it holds. */
  lemma ShortHeader(blob: Bytes, want: Bytes)
    requires |blob| < HEADER
    ensures Parse(blob, want).Rejected?
  {
    hide Scan, FillSha, Join32, HasRequired, Take32, Nat32;
    var (magic, c1) := TakeBytes(Cursor(blob, 0, true), 4);
    var (version, c2) := Take32(c1);
    var (sha, c3) := TakeBytes(c2, SHA_LENGTH);
    Ok32(c1);
    Ok32(c3);
  }

  lemma {:induction false} ShortScan(blob: Bytes, cursor: nat, ss: seq<Section>, spans: map<Tag, Span>)
    requires cursor <= |blob| && Sized(ss) && |blob| - cursor < |AllFramed(ss)|
    requires blob[cursor..] == AllFramed(ss)[..|blob| - cursor]
    ensures Scan(blob, cursor, |ss|, spans).Rejected?
    decreases |ss|
  {
    hide Le32, Take32, Size32, Nat32;
    var s := ss[0];
    var frame := Le32(s.tag.w) + Le32(Size32(|s.payload|));
    var all := AllFramed(ss);
    assert all == frame + s.payload + AllFramed(ss[1..]);
    var c := Cursor(blob, cursor, true);
    Ok32(c);
    Ok32(Take32(c).1);
    if |blob| - cursor >= 8 {
      assert blob[cursor..cursor + 8] == all[..|blob| - cursor][..8] == frame;
      ReadFrame(blob, cursor, s);
      SizeBack(|s.payload|);
      var next := cursor + 8 + |s.payload|;
      if next <= |blob| {
        assert blob[next..] == all[..|blob| - cursor][8 + |s.payload|..];
        ShortScan(blob, next, ss[1..], spans[s.tag := Span(cursor + 8, |s.payload|)]);
      }
    }
  }

  /** Every proper prefix of a saved file is rejected. */
  lemma PrefixRejected(sha: Bytes, ss: seq<Section>, want: Bytes, k: nat)
    requires Sized(ss) && k < |File(sha, ss)|
    ensures Parse(File(sha, ss)[..k], want).Rejected?
  {
    hide Take32, TakeBytes, Scan, FillSha, Header, AllFramed, HasRequired, Size32, Nat32;
    var blob := File(sha, ss)[..k];
    if k < HEADER {
      ShortHeader(blob, want);
    } else {
      assert blob[..HEADER] == Header(sha, |ss|);
      assert blob[HEADER..] == AllFramed(ss)[..k - HEADER];
      HeaderReads(blob, sha, |ss|);
      SizeBack(|ss|);
      ShortScan(blob, HEADER, ss, map[]);
    }
  }

  // ----- The gates -----------------------------------------------------------------------------------------

  /** "GBAS", and format 2 little-endian. */
  const SIGNATURE: Bytes := [0x47, 0x42, 0x41, 0x53]
  const FORMAT: Bytes := [2, 0, 0, 0]

  lemma FormatBytes(a: bv8, b: bv8, c: bv8, d: bv8)
    ensures Join32(a, b, c, d) == VERSION <==> [a, b, c, d] == FORMAT
  {
    FormatJoins(a, b, c, d);
  }

  lemma FormatJoins(a: bv8, b: bv8, c: bv8, d: bv8)
    ensures Join32(a, b, c, d) == 2 <==> a == 2 && b == 0 && c == 0 && d == 0
  {}

  lemma VersionRead(blob: Bytes)
    requires |blob| >= 8
    ensures Take32(Cursor(blob, 4, true)) == (Join32(blob[4], blob[5], blob[6], blob[7]), Cursor(blob, 8, true))
  {
    hide Join32;
  }

  /** A file that does not start with the signature is refused for that, and no other file is. */
  lemma WrongMagic(blob: Bytes, want: Bytes)
    ensures Parse(blob, want) == Rejected(BadMagic) <==> |blob| < 4 || blob[..4] != SIGNATURE
  {
    hide Take32, TakeBytes, Scan, FillSha, HasRequired, Nat32;
    LaterGates(blob, want);
    MagicRead(blob);
  }

  lemma MagicRead(blob: Bytes)
    ensures TakeBytes(Cursor(blob, 0, true), 4).0 == MAGIC <==> |blob| >= 4 && blob[..4] == SIGNATURE
    ensures |blob| >= 4 ==> TakeBytes(Cursor(blob, 0, true), 4).1 == Cursor(blob, 4, true)
  {
    if |blob| >= 4 {
      assert blob[0..4] == blob[..4];
    } else {
      assert Zeros(4)[0] == 0 && MAGIC[0] != 0;
    }
  }

  /** The section loop reports its own errors only. */
  lemma {:induction false} ScanError(blob: Bytes, cursor: nat, count: nat, spans: map<Tag, Span>)
    ensures var p := Scan(blob, cursor, count, spans); p.Rejected? ==> p.error.TruncatedSection? || p.error.Overrun?
    decreases count
  {
    hide Take32, Nat32;
    if count > 0 {
      var (tag, c1) := Take32(Cursor(blob, cursor, true));
      var (len, c2) := Take32(c1);
      if c2.ok && cursor + 8 + Nat32(len) <= |blob| {
        ScanError(blob, cursor + 8 + Nat32(len), count - 1, spans[Tag(tag) := Span(cursor + 8, Nat32(len))]);
      }
    }
  }

  lemma LaterGates(blob: Bytes, want: Bytes)
    ensures var (_, c1) := TakeBytes(Cursor(blob, 0, true), 4);
            var (_, c2) := Take32(c1);
            var (_, c3) := TakeBytes(c2, SHA_LENGTH);
            var (count, c4) := Take32(c3);
            var p := Scan(blob, c4.at, Nat32(count), map[]);
            p.Rejected? ==> p.error.TruncatedSection? || p.error.Overrun?
  {
    hide Take32, TakeBytes, Scan, Nat32;
    var (_, c1) := TakeBytes(Cursor(blob, 0, true), 4);
    var (_, c2) := Take32(c1);
    var (_, c3) := TakeBytes(c2, SHA_LENGTH);
    var (count, c4) := Take32(c3);
    ScanError(blob, c4.at, Nat32(count), map[]);
  }

  /** A file of another format is refused for that. */
  lemma WrongVersion(blob: Bytes, want: Bytes)
    requires |blob| >= 8 && blob[..4] == SIGNATURE
    ensures Parse(blob, want) == Rejected(BadVersion) <==> blob[4..8] != FORMAT
  {
    hide Take32, TakeBytes, Scan, FillSha, HasRequired, Nat32, Join32;
    LaterGates(blob, want);
    MagicRead(blob);
    VersionRead(blob);
    FormatBytes(blob[4], blob[5], blob[6], blob[7]);
    assert blob[4..8] == [blob[4], blob[5], blob[6], blob[7]];
  }

  /** What any accepted file has: a whole header with the signature, the format and the wanted ROM's hash, and the
      required sections. */
  lemma AcceptedFile(blob: Bytes, want: Bytes)
    requires Parse(blob, want).Sections?
    ensures |blob| >= HEADER && blob[..4] == SIGNATURE && blob[4..8] == FORMAT
    ensures want != [] ==> blob[8..48] == FillSha(want)
    ensures var m := Parse(blob, want).spans;
            CPU_TAG in m && BUS_TAG in m && IO_TAG in m && AUDIO_TAG in m && SAVE_TAG in m && PPU_TAG in m
  {
    if |blob| < HEADER { ShortHeader(blob, want); }
    WrongMagic(blob, want);
    WrongVersion(blob, want);
    HashRead(blob, want);
    hide Take32, Scan, FillSha, Nat32;
  }

  lemma HashRead(blob: Bytes, want: Bytes)
    requires |blob| >= HEADER
    ensures Parse(blob, want).Sections? && want != [] ==> blob[8..48] == FillSha(want)
  {
    hide Scan, FillSha, HasRequired, Nat32, Join32;
  }

  /** Between whole hashes the ROM gate is equality. */
  lemma RomGate(sha: Bytes, ss: seq<Section>, want: Bytes)
    requires Sized(ss) && |sha| == 40 && |want| == 40
    ensures Parse(File(sha, ss), want) == Rejected(WrongRom) <==> want != sha
  {
    hide Parse, File, Index, HasRequired;
    FileParses(sha, ss, want);
    assert sha[..40] == sha && want[..40] == want;
  }

  /** The tags read as four characters, the lowest byte first. */
  lemma TagNames()
    ensures Le32(CPU_TAG.w) == [0x43, 0x50, 0x55, 0x30] && Le32(BUS_TAG.w) == [0x42, 0x55, 0x53, 0x30]
    ensures Le32(IO_TAG.w) == [0x49, 0x4F, 0x5F, 0x30] && Le32(AUDIO_TAG.w) == [0x41, 0x55, 0x44, 0x30]
    ensures Le32(SAVE_TAG.w) == [0x53, 0x41, 0x56, 0x30] && Le32(PPU_TAG.w) == [0x50, 0x50, 0x55, 0x30]
    ensures Le32(META_TAG.w) == [0x4D, 0x45, 0x54, 0x41]
  {}

  // ----- The CPU section -----------------------------------------------------------------------------------

  /** ArmCpuState in declaration order. */
  function CpuWords(p: Packed): (ws: seq<bv32>)
    ensures |ws| == 45
  {
    p.R + [p.cpsr] + p.sp + p.lr + p.spsr + p.user8 + p.fiq8
  }

  function PackedOf(ws: seq<bv32>): Packed
    requires |ws| == 45
  {
    Packed(ws[..16], ws[16], ws[17..23], ws[23..29], ws[29..35], ws[35..40], ws[40..45])
  }

  /** serialize_cpu. */
  function CpuPayload(p: Packed, frames: seq<bv32>): Bytes {
    LeWords(CpuWords(p)) + Le32(Size32(|frames|)) + LeWords(frames)
  }

  /** runtime_call_stack_restore keeps what fits. */
  function Clipped(entries: seq<bv32>): seq<bv32> {
    if |entries| > CALL_STACK_SIZE then entries[..CALL_STACK_SIZE] else entries
  }

  /** deserialize_cpu, of any payload. */
  function DecodeCpu(payload: Bytes): (Packed, seq<bv32>) {
    var (raw, c1) := TakeBytes(Cursor(payload, 0, true), 180);
    var (depth, c2) := Take32(c1);
    var (entries, _) := TakeWords(c2, Nat32(depth));
    (PackedOf(TakeWords(Cursor(raw, 0, true), 45).0), Clipped(entries))
  }

  /** Appending keeps every slice of what was there, and the new part is the slice at the end. */
  lemma Appended(front: seq<bv32>, back: seq<bv32>)
    ensures forall i, j | 0 <= i <= j <= |front| :: (front + back)[i..j] == front[i..j]
    ensures (front + back)[|front|..|front| + |back|] == back
  {}

  lemma WordsRepacked(p: Packed)
    ensures PackedOf(CpuWords(p)) == p
  {
    Appended(p.R, [p.cpsr]);
    Appended(p.R + [p.cpsr], p.sp);
    Appended(p.R + [p.cpsr] + p.sp, p.lr);
    Appended(p.R + [p.cpsr] + p.sp + p.lr, p.spsr);
    Appended(p.R + [p.cpsr] + p.sp + p.lr + p.spsr, p.user8);
    Appended(p.R + [p.cpsr] + p.sp + p.lr + p.spsr + p.user8, p.fiq8);
    assert p.R[..] == p.R[0..16];
  }

  /** The CPU and the call-return stack come back from their section. */
  lemma CpuComesBack(p: Packed, frames: seq<bv32>)
    requires |frames| <= CALL_STACK_SIZE
    ensures DecodeCpu(CpuPayload(p, frames)) == (p, frames)
  {
    hide Le32, Take32, CpuWords, PackedOf, Size32, Nat32, LeWords, TakeWords;
    var ws := CpuWords(p);
    var depth := Le32(Size32(|frames|));
    var payload := CpuPayload(p, frames);
    var c := Cursor(payload, 0, true);
    assert payload == LeWords(ws) + (depth + LeWords(frames));
    assert Next(c, LeWords(ws) + (depth + LeWords(frames)));
    NextSplit(c, LeWords(ws), depth + LeWords(frames));
    NextSplit(Cursor(payload, 180, true), depth, LeWords(frames));
    ReadBackBytes(c, LeWords(ws));
    ReadBack32(Cursor(payload, 180, true), Size32(|frames|));
    SizeBack(|frames|);
    ReadBackWords(Cursor(payload, 184, true), frames);
    ReadBackWords(Cursor(LeWords(ws), 0, true), ws);
    WordsRepacked(p);
  }

  // ----- The machine -----------------------------------------------------------------------------------------

  /** All a snapshot holds. What each device serializes is its own affair: a device is the payload it wrote. */
  datatype Snapshot = Snapshot(cpu: Packed, frames: seq<bv32>, bus: Bytes, io: Bytes, audio: Bytes, save: Bytes, ppu: Bytes,
                               taken: bv64, cycles: bv64, vblanks: bv64)

  function MetaPayload(s: Snapshot): Bytes {
    Le64(s.taken) + Le64(s.cycles) + Le64(s.vblanks)
  }

  function SectionsOf(s: Snapshot): seq<Section> {
    [Section(CPU_TAG, CpuPayload(s.cpu, s.frames)), Section(BUS_TAG, s.bus), Section(IO_TAG, s.io),
     Section(AUDIO_TAG, s.audio), Section(SAVE_TAG, s.save), Section(PPU_TAG, s.ppu), Section(META_TAG, MetaPayload(s))]
  }

  /** deserialize_meta. */
  function DecodeMeta(payload: Bytes): (bv64, bv64, bv64) {
    var (taken, c1) := Take64(Cursor(payload, 0, true));
    var (cycles, c2) := Take64(c1);
    var (vblanks, _) := Take64(c2);
    (taken, cycles, vblanks)
  }

  function Counters(blob: Bytes, spans: map<Tag, Span>, was: Snapshot): (bv64, bv64, bv64)
    requires Inside(blob, spans)
  {
    if META_TAG in spans then DecodeMeta(Payload(blob, spans[META_TAG])) else (was.taken, was.cycles, was.vblanks)
  }

  /** What load_state makes of an accepted file; META is advisory. */
  function Loaded(blob: Bytes, spans: map<Tag, Span>, was: Snapshot): Snapshot
    requires Inside(blob, spans) && HasRequired(spans)
  {
    Required();
    var cpu := DecodeCpu(Payload(blob, spans[CPU_TAG]));
    var meta := Counters(blob, spans, was);
    Snapshot(cpu.0, cpu.1, Payload(blob, spans[BUS_TAG]), Payload(blob, spans[IO_TAG]), Payload(blob, spans[AUDIO_TAG]),
             Payload(blob, spans[SAVE_TAG]), Payload(blob, spans[PPU_TAG]), meta.0, meta.1, meta.2)
  }

  lemma Required()
    ensures CPU_TAG in REQUIRED && BUS_TAG in REQUIRED && IO_TAG in REQUIRED && AUDIO_TAG in REQUIRED
    ensures SAVE_TAG in REQUIRED && PPU_TAG in REQUIRED
  {
    assert REQUIRED[0] == CPU_TAG && REQUIRED[1] == BUS_TAG && REQUIRED[2] == IO_TAG && REQUIRED[3] == AUDIO_TAG;
    assert REQUIRED[4] == SAVE_TAG && REQUIRED[5] == PPU_TAG;
  }

  lemma MetaComesBack(s: Snapshot)
    ensures DecodeMeta(MetaPayload(s)) == (s.taken, s.cycles, s.vblanks)
  {
    hide Le64, Take64;
    var payload := MetaPayload(s);
    var c := Cursor(payload, 0, true);
    assert payload == Le64(s.taken) + (Le64(s.cycles) + Le64(s.vblanks));
    assert Next(c, Le64(s.taken) + (Le64(s.cycles) + Le64(s.vblanks)));
    NextSplit(c, Le64(s.taken), Le64(s.cycles) + Le64(s.vblanks));
    NextSplit(Cursor(payload, 8, true), Le64(s.cycles), Le64(s.vblanks));
    ReadBack64(c, s.taken);
    ReadBack64(Cursor(payload, 8, true), s.cycles);
    ReadBack64(Cursor(payload, 16, true), s.vblanks);
  }

  lemma TagsDistinct(s: Snapshot)
    ensures Distinct(SectionsOf(s))
  {
    hide CpuPayload, MetaPayload;
  }

  lemma RequiredPresent(s: Snapshot, sha: Bytes)
    requires Sized(SectionsOf(s))
    ensures HasRequired(Index(SectionsOf(s), HEADER, map[]))
  {
    hide CpuPayload, MetaPayload, Index, Payload, AllFramed, Header;
    var ss := SectionsOf(s);
    var blob := File(sha, ss);
    TagsDistinct(s);
    assert blob[HEADER..] == AllFramed(ss);
    forall t | t in REQUIRED ensures t in Index(ss, HEADER, map[]) {
      var i :| 0 <= i < |REQUIRED| && REQUIRED[i] == t;
      assert ss[i].tag == t;
      IndexFinds(blob, ss, HEADER, map[], i);
    }
  }

  /** Loading a saved file restores the whole machine: CPU, call-return stack, every device and the counters. */
  lemma SaveThenLoad(s: Snapshot, sha: Bytes, want: Bytes, was: Snapshot)
    requires Sized(SectionsOf(s)) && |s.frames| <= CALL_STACK_SIZE
    requires want == [] || FillSha(want) == FillSha(sha)
    ensures var blob := File(sha, SectionsOf(s));
            var p := Parse(blob, want);
            p.Sections? && Inside(blob, p.spans) && HasRequired(p.spans) && Loaded(blob, p.spans, was) == s
  {
    hide CpuPayload, MetaPayload, DecodeCpu, DecodeMeta, Index, Payload, Parse, File, FillSha, HasRequired, Inside;
    var ss := SectionsOf(s);
    var blob := File(sha, ss);
    TagsDistinct(s);
    RequiredPresent(s, sha);
    FileParses(sha, ss, want);
    ParseInside(blob, want);
    forall i | 0 <= i < 7
      ensures var m := Parse(blob, want).spans;
              ss[i].tag in m && m[ss[i].tag].off + m[ss[i].tag].len <= |blob| && Payload(blob, m[ss[i].tag]) == ss[i].payload
    {
      PayloadsComeBack(sha, ss, want, i);
    }
    assert ss[0].tag == CPU_TAG && ss[1].tag == BUS_TAG && ss[2].tag == IO_TAG && ss[3].tag == AUDIO_TAG;
    assert ss[4].tag == SAVE_TAG && ss[5].tag == PPU_TAG && ss[6].tag == META_TAG;
    CpuComesBack(s.cpu, s.frames);
    MetaComesBack(s);
  }
}
