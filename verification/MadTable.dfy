/** The fields of the field table of libibmad that have at most 32 bits, and what that says of
    writing and reading them.  Offsets are the normalised ones. */
module MadTable {
  import opened BitNumbers
  import opened MadFields

  const OFFSETS_1: set<nat> := {7, 30, 31, 63, 66, 95, 155, 156, 157, 158, 159, 320, 321, 322, 323, 391, 407}
  const OFFSETS_2: set<nat> := {
    0, 30, 32, 34, 36, 38, 40, 42, 44, 46, 48, 50, 52, 54, 56, 58, 60, 62, 64, 270, 389}
  const OFFSETS_3: set<nat> := {0, 59, 200, 264, 333}
  const OFFSETS_4: set<nat> := {
    0, 4, 24, 60, 128, 132, 184, 188, 212, 256, 260, 272, 276, 280, 284, 304, 308, 312, 316, 324, 336, 340,
    380, 408, 432, 436, 468, 488, 492, 556, 572}
  const OFFSETS_5: set<nat> := {32, 67, 203, 328, 384, 440, 480}
  const OFFSETS_6: set<nat> := {296, 328}
  const OFFSETS_7: set<nat> := {0, 24, 48, 400}
  const OFFSETS_8: set<nat> := {
    0, 8, 16, 24, 32, 40, 48, 56, 64, 72, 80, 88, 96, 136, 144, 152, 192, 208, 216, 224, 232, 240, 248, 288,
    296, 312, 344, 392, 472, 536, 560}
  const OFFSETS_14: set<nat> := {16}
  const OFFSETS_15: set<nat> := {48, 80}
  const OFFSETS_16: set<nat> := {
    0, 16, 32, 48, 64, 80, 96, 112, 128, 144, 160, 176, 192, 208, 224, 240, 256, 272, 288, 304, 320, 336, 352,
    368, 384, 400, 416, 432, 448, 464, 480, 496, 512, 528, 576, 592}
  const OFFSETS_20: set<nat> := {192, 360, 448}
  const OFFSETS_24: set<nat> := {0, 8, 40, 256, 288, 320, 448, 512}
  const OFFSETS_27: set<nat> := {32, 37}
  const OFFSETS_32: set<nat> := {
    0, 32, 64, 96, 128, 160, 192, 224, 256, 288, 320, 352, 384, 416, 448, 480, 512, 544, 576, 608, 640, 672,
    704, 736, 768, 800, 832, 864, 896, 928, 960, 992, 1024, 1056, 1088, 1120, 1152, 1184}

  /** The offsets of the fields with `len` bits. */
  function Offsets(len: nat): set<nat> {
    if len == 1 then OFFSETS_1
    else if len == 2 then OFFSETS_2
    else if len == 3 then OFFSETS_3
    else if len == 4 then OFFSETS_4
    else if len == 5 then OFFSETS_5
    else if len == 6 then OFFSETS_6
    else if len == 7 then OFFSETS_7
    else if len == 8 then OFFSETS_8
    else if len == 14 then OFFSETS_14
    else if len == 15 then OFFSETS_15
    else if len == 16 then OFFSETS_16
    else if len == 20 then OFFSETS_20
    else if len == 24 then OFFSETS_24
    else if len == 27 then OFFSETS_27
    else if len == 32 then OFFSETS_32
    else {}
  }

  predicate InTable(f: Field) { f.offs in Offsets(f.len) }

  // -------------------------------------------------------- where they start

  /** The places in a byte at which a field with `len` bits starts. */
  function Starts(len: nat): set<nat> {
    if len == 1 then {0, 1, 2, 3, 4, 5, 6, 7}
    else if len == 2 then {0, 2, 4, 5, 6}
    else if len == 3 then {0, 3, 5}
    else if len == 4 then {0, 4}
    else if len == 5 then {0, 3}
    else if len == 27 then {0, 5}
    else {0}
  }

  lemma ShortStarts(o: nat, len: nat)
    requires len in {1, 3, 5, 27} && o in Offsets(len)
    ensures o % 8 in Starts(len)
  {
  }

  lemma PairStarts(o: nat)
    requires o in OFFSETS_2
    ensures o % 8 in Starts(2)
  {
  }

  lemma NibbleStarts(o: nat)
    requires o in OFFSETS_4
    ensures o % 8 in Starts(4)
  {
  }

  lemma ByteStarts(o: nat, len: nat)
    requires len in {6, 7, 8, 14, 15} && o in Offsets(len)
    ensures o % 8 == 0
  {
  }

  lemma TripleStarts(o: nat, len: nat)
    requires len in {20, 24} && o in Offsets(len)
    ensures o % 8 == 0
  {
  }

  lemma HalfStarts(o: nat)
    requires o in OFFSETS_16
    ensures o % 8 == 0
  {
  }

  lemma WordStarts(o: nat)
    requires o in OFFSETS_32
    ensures o % 8 == 0
  {
  }

  lemma TableStarts(f: Field)
    requires InTable(f)
    ensures f.len <= 32 && f.offs % 8 in Starts(f.len)
  {
    var o, len := f.offs, f.len;
    if len in {1, 3, 5, 27} { ShortStarts(o, len); }
    else if len in {6, 7, 8, 14, 15} { ByteStarts(o, len); }
    else if len in {20, 24} { TripleStarts(o, len); }
    else if len == 2 { PairStarts(o); }
    else if len == 4 { NibbleStarts(o); }
    else if len == 16 { HalfStarts(o); }
    else { WordStarts(o); }
  }

  // ------------------------------------------------------------- what follows

  /** Every field of the table is regular. */
  lemma TableRegular(f: Field)
    requires InTable(f)
    ensures f.Regular() && f.len <= 32
  {
    TableStarts(f);
    RegularOrLonger(f);
  }

  /** So each of them reads back what was written to it. */
  lemma TableRoundTrip(buf: Buf, f: Field, val: nat)
    requires InTable(f) && f.Fits(buf)
    ensures GetField(SetField(buf, f, val), f) == Low(val, f.len)
  {
    TableRegular(f);
    RoundTrip(buf, f, val);
  }

  /** And a value that fits disturbs none of the others. */
  lemma TableNoInterference(buf: Buf, f: Field, val: nat, g: Field)
    requires InTable(f) && InTable(g) && f.Fits(buf) && val < Pow2(f.len) && Apart(f, g)
    ensures GetField(SetField(buf, f, val), g) == GetField(buf, g)
  {
    TableRegular(f);
    TableRegular(g);
    NoInterference(buf, f, val, g);
  }

  /** These fields, and no others, let a value that is too long spill into the neighbour. */
  predicate Spills(f: Field) { f.len in {14, 15, 20} || f == Field(32, 27) }

  lemma TableMasks(f: Field)
    requires InTable(f)
    ensures MasksEverything(f) <==> !Spills(f)
  {
    TableRegular(f);
    MasksEverythingExactly(f);
    TableUnmasked(f);
  }

  lemma TableUnmasked(f: Field)
    requires InTable(f)
    ensures f.Unmasked() <==> Spills(f)
  {
    TableStarts(f);
    if f.len < 8 {
      assert f.offs % 8 + f.len <= 8;
      ShortMasked(f);
    } else {
      LongUnmasked(f, f.offs % 8);
      if f.len == 27 { assert f.offs in OFFSETS_27; }
    }
  }

  lemma ShortMasked(f: Field)
    requires f.offs % 8 + f.len <= 8
    ensures !f.Unmasked()
  {
  }

  lemma LongUnmasked(f: Field, lo: nat)
    requires f.len >= 8 && lo == f.offs % 8
    ensures f.Unmasked() <==> (lo + f.len) % 8 > 0
  {
  }

  /** In such a field the value one past the largest sets the lowest bit of the field above,
      whatever the buffer held. */
  lemma SpillsInto(buf: Buf, f: Field, g: Field)
    requires InTable(f) && InTable(g) && f.Fits(buf) && Spills(f) && g.offs == f.offs + f.len
    ensures Bit(GetField(SetField(buf, f, Pow2(f.len)), g), 0)
  {
    TableRegular(f);
    TableRegular(g);
    TableUnmasked(f);
    UnmaskedShort(f);
    SpillRead(buf, f, g);
  }

  lemma SpillRead(buf: Buf, f: Field, g: Field)
    requires f.Fits(buf) && Span(f) == f.len && Beyond(f) > 0
    requires g.Regular() && 0 < g.len <= 32 && g.offs == f.offs + f.len
    ensures Bit(GetField(SetField(buf, f, Pow2(f.len)), g), 0)
  {
    SpillsOver(f, buf);
    GetBits(SetField(buf, f, Pow2(f.len)), g, 0);
  }

  const CCT_SHIFT := Field(30, 2)
  const CCT_MULTIPLIER := Field(16, 14)

  lemma Pow14()
    ensures Pow2(14) == 0x4000
  {
  }

  /** For one: a multiplier of 0x4000 sets the lowest bit of the shift. */
  lemma MultiplierSpills(buf: Buf)
    requires |buf| % 4 == 0 && |buf| >= 4
    ensures InTable(CCT_MULTIPLIER) && InTable(CCT_SHIFT) && Apart(CCT_MULTIPLIER, CCT_SHIFT)
    ensures CCT_MULTIPLIER.Fits(buf) && Bit(GetField(SetField(buf, CCT_MULTIPLIER, 0x4000), CCT_SHIFT), 0)
  {
    Pow14();
    SpillsInto(buf, CCT_MULTIPLIER, CCT_SHIFT);
  }
}
