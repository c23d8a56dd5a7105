// save_state and load_state as they run: a writer fed section by section, a reader over the file, and the live
// CPU, call-return stack and devices.
module SnapshotMachine {
  import opened ByteStreams
  import opened SaveState
  import opened Cpu
  import opened RuntimeOps
  import opened Runtime

  /** add_section: tag, length, payload. */
  method AddSection(out: Writer, s: Section)
    modifies out
    ensures out.buf == old(out.buf) + Framed(s)
  {
    hide Le32, Size32;
    out.U32(s.tag.w);
    out.U32(Size32(|s.payload|));
    out.PutBytes(s.payload);
  }

  /** Section after section. */
  method AddSections(out: Writer, sections: seq<Section>)
    modifies out
    ensures out.buf == old(out.buf) + AllFramed(sections)
  {
    hide Framed;
    for i := 0 to |sections|
      invariant out.buf + AllFramed(sections[i..]) == old(out.buf) + AllFramed(sections)
    {
      assert sections[i..][1..] == sections[i + 1..];
      AddSection(out, sections[i]);
    }
  }

  /** The section loop of load_state. */
  method ScanSections(blob: Bytes, start: nat, count: nat) returns (r: Parsed)
    ensures r == Scan(blob, start, count, map[])
  {
    hide Take32;
    var spans: map<Tag, Span> := map[];
    var cursor: nat := start;
    for i := 0 to count
      invariant Scan(blob, start, count, map[]) == Scan(blob, cursor, count - i, spans)
    {
      var sr := new Reader(blob);
      sr.cur := cursor;
      var tag := sr.U32();
      var len := sr.U32();
      if !sr.ok { return Rejected(TruncatedSection); }
      if cursor + 8 + Nat32(len) > |blob| { return Rejected(Overrun); }
      spans := spans[Tag(tag) := Span(cursor + 8, Nat32(len))];
      cursor := cursor + 8 + Nat32(len);
    }
    return Sections(spans);
  }

  /** The gates of load_state. */
  method CheckFile(blob: Bytes, want: Bytes) returns (r: Parsed)
    ensures r == Parse(blob, want)
  {
    hide Take32, Nat32, Scan, FillSha, HasRequired;
    var head := new Reader(blob);
    var magic := head.GetBytes(4);
    if magic != MAGIC { return Rejected(BadMagic); }
    var version := head.U32();
    if version != VERSION { return Rejected(BadVersion); }
    var sha := head.GetBytes(SHA_LENGTH);
    if want != [] && sha != FillSha(want) { return Rejected(WrongRom); }
    var count := head.U32();
    if !head.ok { return Rejected(TruncatedHeader); }
    r := ScanSections(blob, head.cur, Nat32(count));
    if r.Sections? && !HasRequired(r.spans) { return Rejected(MissingSection); }
  }

  class Machine {
    const cpu: PackedCpu
    const calls: ReturnStack
    var bus: Bytes
    var io: Bytes
    var audio: Bytes
    var save: Bytes
    var ppu: Bytes
    var taken: bv64
    var cycles: bv64
    var vblanks: bv64

    ghost const Repr: set<object> := {this} + cpu.Repr + calls.Repr

    ghost predicate Valid()
      reads this, calls
    {
      && cpu.Valid() && calls.slots.Length == CALL_STACK_SIZE && calls.depth <= CALL_STACK_SIZE
      && this !in cpu.Repr && this !in calls.Repr && cpu.Repr !! calls.Repr
    }

    ghost function Value(): Snapshot
      requires Valid()
      reads Repr
    {
      Snapshot(cpu.Value(), calls.slots[..calls.depth], bus, io, audio, save, ppu, taken, cycles, vblanks)
    }

    constructor ()
      ensures Valid() && fresh(Repr)
    {
      cpu := new PackedCpu();
      calls := new ReturnStack();
      bus, io, audio, save, ppu := [], [], [], [], [];
      taken, cycles, vblanks := 0, 0, 0;
    }

    /** serialize_cpu. */
    method SerializeCpu() returns (payload: Bytes)
      requires Valid()
      ensures payload == CpuPayload(cpu.Value(), calls.slots[..calls.depth])
    {
      hide Le32, Size32;
      var w := new Writer();
      var words := cpu.R[..] + [cpu.cpsr] + cpu.sp[..] + cpu.lr[..] + cpu.spsr[..] + cpu.user8[..] + cpu.fiq8[..];
      w.PutBytes(LeWords(words));
      w.U32(Size32(calls.depth));
      ghost var frames := calls.slots[..calls.depth];
      ghost var front := w.buf;
      for i := 0 to calls.depth
        invariant w.buf == front + LeWords(frames[..i])
      {
        assert frames[..i + 1][..i] == frames[..i];
        w.U32(calls.slots[i]);
      }
      assert frames[..calls.depth] == frames;
      payload := w.buf;
    }

    /** serialize_meta. */
    method SerializeMeta() returns (payload: Bytes)
      requires Valid()
      ensures payload == MetaPayload(Value())
    {
      hide Le64;
      var w := new Writer();
      w.U64(taken);
      w.U64(cycles);
      w.U64(vblanks);
      payload := w.buf;
    }

    /** save_state, up to writing the file. */
    method Save(sha: Bytes) returns (blob: Bytes)
      requires Valid()
      ensures blob == File(sha, SectionsOf(Value()))
    {
      hide Le32, Size32, FillSha, AllFramed, CpuPayload, MetaPayload;
      var w := new Writer();
      w.PutBytes(MAGIC);
      w.U32(VERSION);
      w.PutBytes(FillSha(sha));
      w.U32(Size32(7));
      var cpuPayload := SerializeCpu();
      var metaPayload := SerializeMeta();
      var sections := [Section(CPU_TAG, cpuPayload), Section(BUS_TAG, bus), Section(IO_TAG, io),
                       Section(AUDIO_TAG, audio), Section(SAVE_TAG, save), Section(PPU_TAG, ppu),
                       Section(META_TAG, metaPayload)];
      assert sections == SectionsOf(Value());
      AddSections(w, sections);
      blob := w.buf;
    }

    /** deserialize_cpu. */
    method DeserializeCpu(payload: Bytes)
      requires Valid()
      modifies cpu.Repr, calls.Repr
      ensures Valid() && (cpu.Value(), calls.slots[..calls.depth]) == DecodeCpu(payload)
      ensures calls.floor == old(calls.floor)
    {
      hide Take32, TakeWords, Nat32, PackedOf;
      var r := new Reader(payload);
      var raw := r.GetBytes(180);
      var words := new Reader(raw);
      var ws := words.Words(45);
      cpu.Become(PackedOf(ws));
      var depth := r.U32();
      var entries := r.Words(Nat32(depth));
      calls.Restore(entries);
      assert entries[..calls.depth] == Clipped(entries);
    }

    method RestoreCounters(blob: Bytes, spans: map<Tag, Span>)
      requires Valid() && Inside(blob, spans)
      modifies this`taken, this`cycles, this`vblanks
      ensures (taken, cycles, vblanks) == Counters(blob, spans, old(Value()))
    {
      hide DecodeMeta, Payload;
      if META_TAG in spans {
        var meta := DecodeMeta(Payload(blob, spans[META_TAG]));
        taken, cycles, vblanks := meta.0, meta.1, meta.2;
      }
    }

    /** The devices and the counters take what their sections hold. */
    method RestoreDevices(blob: Bytes, spans: map<Tag, Span>)
      requires Valid() && Inside(blob, spans) && HasRequired(spans)
      modifies this
      ensures Valid() && Value() == Loaded(blob, spans, old(Value())).(cpu := cpu.Value(), frames := calls.slots[..calls.depth])
    {
      hide DecodeCpu, DecodeMeta, Payload, CpuWords;
      Required();
      RestoreCounters(blob, spans);
      bus := Payload(blob, spans[BUS_TAG]);
      io := Payload(blob, spans[IO_TAG]);
      audio := Payload(blob, spans[AUDIO_TAG]);
      save := Payload(blob, spans[SAVE_TAG]);
      ppu := Payload(blob, spans[PPU_TAG]);
    }

    /** load_state: a rejected file changes nothing; an accepted one leaves exactly what it holds. */
    method Load(blob: Bytes, want: Bytes) returns (r: Parsed)
      requires Valid()
      modifies Repr
      ensures Valid() && r == Parse(blob, want) && calls.floor == old(calls.floor)
      ensures r.Rejected? ==> unchanged(Repr)
      ensures r.Sections? ==> Inside(blob, r.spans) && HasRequired(r.spans) && Value() == Loaded(blob, r.spans, old(Value()))
    {
      hide Parse, DecodeCpu, DecodeMeta, Payload, HasRequired, Inside;
      r := CheckFile(blob, want);
      if r.Sections? {
        ParseInside(blob, want);
        Accepted(blob, want);
        CpuSpan(blob, r.spans);
        DeserializeCpu(Payload(blob, r.spans[CPU_TAG]));
        RestoreDevices(blob, r.spans);
      }
    }
  }

  lemma CpuSpan(blob: Bytes, spans: map<Tag, Span>)
    requires Inside(blob, spans) && HasRequired(spans)
    ensures CPU_TAG in spans && spans[CPU_TAG].off + spans[CPU_TAG].len <= |blob|
  {
    Required();
  }

  lemma Accepted(blob: Bytes, want: Bytes)
    ensures var p := Parse(blob, want); p.Sections? ==> HasRequired(p.spans)
  {
    hide Take32, TakeBytes, Scan, Nat32, FillSha;
  }
}
