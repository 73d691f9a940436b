/** The firmware's readers recover from the image's layout what the builder meant by it. */
module BootProof {
  import opened Bytes
  import opened Results
  import opened MbrReader
  import opened GptReader
  import opened Fat16Reader
  import opened FirmwareReader
  import opened BootLayout
  import FatGeometry

  // ---------- the protective MBR ----------

  function RecordHead(): (head: seq<Byte>)
    ensures |head| == 8
  {
    [0x00, 0x00, 0x02, 0x00, 0xee, 0xff, 0xff, 0xff]
  }

  lemma RecordReads(image: seq<Byte>, b: nat, head: seq<Byte>, first: nat, size: nat)
    requires |head| == 8 && first < Pow256(4) && size < Pow256(4)
    requires Holds(image, b, head + (Pack(4, first) + Pack(4, size)))
    ensures RecordAt(image, b) == Record(head[0], head[1..4], head[4], head[5..8], first, size)
  {
    var record := head + (Pack(4, first) + Pack(4, size));
    HoldsPart(image, b, record, 0, head);
    HoldsPart(image, b, record, 8, Pack(4, first));
    HoldsPart(image, b, record, 12, Pack(4, size));
    HoldsField(image, b + 8, 4, first);
    HoldsField(image, b + 12, 4, size);
    HeadBytes(image, b, head);
  }

  lemma HeadBytes(image: seq<Byte>, b: nat, head: seq<Byte>)
    requires |head| == 8 && Holds(image, b, head)
    ensures image[b] == head[0] && image[b + 1..b + 4] == head[1..4] && image[b + 4] == head[4]
    ensures image[b + 5..b + 8] == head[5..8]
  {
    HoldsSlice(image, b, head, 1, 4);
    HoldsSlice(image, b, head, 5, 8);
    assert image[b] == image[b..b + 8][0] && image[b + 4] == image[b..b + 8][4];
  }

  /** A block with the protective record, the signature and nothing between is a protective MBR. */
  lemma RecordProtects(image: seq<Byte>, record: seq<Byte>, blocks: nat)
    requires |image| == blocks * 512 && 2 <= blocks < 0x1_0000_0000 && blocks - 1 < Pow256(4)
    requires record == RecordHead() + (Pack(4, 1) + Pack(4, blocks - 1))
    requires Holds(image, 510, [0x55, 0xAA]) && Holds(image, 462, Zeros(48)) && Holds(image, 446, record)
    ensures Protective(image)
  {
    var head := RecordHead();
    RecordReads(image, 446, head, 1, blocks - 1);
    assert head[1..4] == [0x00, 0x02, 0x00] && head[5..8] == [0xFF, 0xFF, 0xFF];
  }

  lemma ImageHoldsMbr(application: seq<Byte>, crc: Checksum)
    requires FitsVolume(|application|)
    ensures var image := Image(application, crc);
            Holds(image, 510, [0x55, 0xAA]) && Holds(image, 462, Zeros(48)) && Holds(image, 446, ProtectiveRecord())
  {
    ImageWritesApart(application, crc);
    SurvivesInHead(IMAGE_BYTES, GptLog(crc), VolumeLog(application), 0);
    SurvivesInHead(IMAGE_BYTES, GptLog(crc), VolumeLog(application), 1);
    OtherRecordsZero(application, crc);
  }

  lemma RecordWritten(blocks: nat)
    requires blocks == SECTORS
    ensures blocks - 1 < Pow256(4) && ProtectiveRecord() == RecordHead() + (Pack(4, 1) + Pack(4, blocks - 1))
  {
  }

  lemma ImageProtected(application: seq<Byte>, crc: Checksum)
    requires FitsVolume(|application|)
    ensures Protective(Image(application, crc))
  {
    ImageHoldsMbr(application, crc);
    RecordWritten(SECTORS);
    RecordProtects(Image(application, crc), ProtectiveRecord(), SECTORS);
  }

  lemma OtherRecordsZero(application: seq<Byte>, crc: Checksum)
    requires FitsVolume(|application|)
    ensures Holds(Image(application, crc), 462, Zeros(48))
  {
    var gpt, volume, gap := GptLog(crc), VolumeLog(application), Write(462, Zeros(48));
    VolumeLogApart(application);
    MbrGap(ProtectiveRecord(), EntryTable(), HeaderBlock(1, SECTORS - 1, 2, crc),
           HeaderBlock(SECTORS - 1, 1, SECTORS - 33, crc));
    forall j | 0 <= j < |gpt + volume| ensures Apart(gap, (gpt + volume)[j]) {
    }
    UnwrittenIsZero(IMAGE_BYTES, gpt + volume, gap);
  }

  lemma MbrGap(mbr: seq<Byte>, entries: seq<Byte>, primary: seq<Byte>, backup: seq<Byte>)
    requires |mbr| == 16 && |entries| == 128 * 128 && |primary| == |backup| == SECTOR
    ensures var log := GptWrites(mbr, entries, primary, backup);
            forall j | 0 <= j < |log| :: Apart(Write(462, Zeros(48)), log[j])
  {
  }

  // ---------- GPT ----------

  lemma HeaderWritesApart(current: nat, backup: nat, entriesLba: nat, entriesCrc: Word32, crc: Checksum)
    requires current < Pow256(8) && backup < Pow256(8) && entriesLba < Pow256(8)
    ensures PairwiseApart(HeaderLog(current, backup, entriesLba, entriesCrc, crc))
  {
    var log := HeaderLog(current, backup, entriesLba, entriesCrc, crc);
    assert log[0].End() == 8;
    assert log[1].offset == 8 && log[1].End() == 12;
    assert log[2].offset == 12 && log[2].End() == 16;
    assert log[3].offset == 24 && log[3].End() == 32;
    assert log[4].offset == 32 && log[4].End() == 40;
    assert log[5].offset == 40 && log[5].End() == 48;
    assert log[6].offset == 48 && log[6].End() == 56;
    assert log[7].offset == 56 && log[7].End() == 72;
    assert log[8].offset == 72 && log[8].End() == 80;
    assert log[9].offset == 80 && log[9].End() == 84;
    assert log[10].offset == 84 && log[10].End() == 88;
    assert log[11].offset == 88 && log[11].End() == 92;
    assert log[12].offset == 16 && log[12].End() == 20;
  }

  /** A header buffer, wherever it lies, parses to what it was packed from and carries its own checksum. */
  lemma HeaderParses(image: seq<Byte>, b: nat, current: nat, backup: nat, entriesLba: nat, entriesCrc: Word32,
                     crc: Checksum)
    requires current < Pow256(8) && backup < Pow256(8) && entriesLba < Pow256(8) && b + SECTOR <= |image|
    requires Holds(image, b, Written(SECTOR, HeaderLog(current, backup, entriesLba, entriesCrc, crc)))
    ensures image[b..b + 8] == Ascii("EFI PART") && Field(image, b + 8, 4) == 0x0001_0000
    ensures ParseHeader(image, b)
            == Header(92, crc(Sealed(image, b, 92)), current, backup, 34, SECTORS - 34, DISK_GUID,
                      entriesLba, 128, 128, entriesCrc)
  {
    var log := HeaderLog(current, backup, entriesLba, entriesCrc, crc);
    HeaderWritesApart(current, backup, entriesLba, entriesCrc, crc);
    DataOfWrite(image, b, SECTOR, log, 0);
    FieldOfWrite(image, b, SECTOR, log, 1, 4, 0x0001_0000);
    FieldOfWrite(image, b, SECTOR, log, 2, 4, 92);
    FieldOfWrite(image, b, SECTOR, log, 3, 8, current);
    FieldOfWrite(image, b, SECTOR, log, 4, 8, backup);
    FieldOfWrite(image, b, SECTOR, log, 5, 8, 34);
    FieldOfWrite(image, b, SECTOR, log, 6, 8, SECTORS - 34);
    DataOfWrite(image, b, SECTOR, log, 7);
    FieldOfWrite(image, b, SECTOR, log, 8, 8, entriesLba);
    FieldOfWrite(image, b, SECTOR, log, 9, 4, 128);
    FieldOfWrite(image, b, SECTOR, log, 10, 4, 128);
    FieldOfWrite(image, b, SECTOR, log, 11, 4, entriesCrc);
    HeaderSeal(image, b, current, backup, entriesLba, entriesCrc, crc);
  }

  /** Zeroing the CRC field gives back the bytes the CRC was taken over. */
  lemma HeaderSeal(image: seq<Byte>, b: nat, current: nat, backup: nat, entriesLba: nat, entriesCrc: Word32,
                   crc: Checksum)
    requires current < Pow256(8) && backup < Pow256(8) && entriesLba < Pow256(8) && b + SECTOR <= |image|
    requires Holds(image, b, Written(SECTOR, HeaderLog(current, backup, entriesLba, entriesCrc, crc)))
    ensures Field(image, b + 16, 4) == crc(Sealed(image, b, 92))
  {
    var fields := HeaderFieldsLog(current, backup, entriesLba, entriesCrc);
    var before := Written(SECTOR, fields);
    var seal: Word32 := crc(before[..92]);
    var log := HeaderLog(current, backup, entriesLba, entriesCrc, crc);
    assert |fields| == 12 && log == fields + [Write(16, Pack(4, seal))];
    HeaderWritesApart(current, backup, entriesLba, entriesCrc, crc);
    forall j | 0 <= j < |fields| ensures Apart(Write(16, Zeros(4)), fields[j]) {
      assert fields[j] == log[j] && Apart(log[j], log[12]);
    }
    UnwrittenIsZero(SECTOR, fields, Write(16, Zeros(4)));
    WrittenSnoc(SECTOR, fields, Write(16, Pack(4, seal)));
    SealedBytes(image, b, before, Write(16, Pack(4, seal)));
    FieldOfWrite(image, b, SECTOR, log, 12, 4, seal);
  }

  lemma SealedBytes(image: seq<Byte>, b: nat, before: seq<Byte>, w: Write)
    requires |before| == SECTOR && w.offset == 16 && |w.data| == 4
    requires Holds(image, b, Splice(before, w)) && Holds(before, 16, Zeros(4))
    ensures Sealed(image, b, 92) == before[..92]
  {
    var after := Splice(before, w);
    HoldsSlice(image, b, after, 0, 16);
    HoldsSlice(image, b, after, 20, 92);
    assert after[0..16] == before[..16];
    assert after[20..92] == before[20..92];
    assert before[..92] == before[..16] + before[16..20] + before[20..92];
  }

  lemma ImageHeaderValid(image: seq<Byte>, current: nat, backup: nat, entriesLba: nat, crc: Checksum)
    requires current < SECTORS && backup < SECTORS && entriesLba < SECTORS && |image| == IMAGE_BYTES
    requires current < Pow256(8) && backup < Pow256(8) && entriesLba < Pow256(8)
    requires Holds(image, current * SECTOR, HeaderBlock(current, backup, entriesLba, crc))
    requires Holds(image, entriesLba * SECTOR, EntryTable())
    ensures ValidHeader(image, current, crc)
    ensures var h := ParseHeader(image, current * SECTOR);
            && h.alternateLba == backup && h.firstUsable == 34 && h.lastUsable == SECTORS - 34 && h.disk == DISK_GUID
            && h.entriesLba == entriesLba && h.EntriesEnd() == entriesLba + 32 && h.entrySize == 128
            && EntryArray(image, h) == Some(EntryTable())
  {
    HeaderParses(image, current * SECTOR, current, backup, entriesLba, crc(EntryTable()), crc);
  }

  function Units(text: string): (units: seq<nat>)
    ensures |units| == |text|
  {
    seq(|text|, i requires 0 <= i < |text| => text[i] as nat)
  }

  /** A name of ASCII characters is read back from its UTF-16 bytes. */
  lemma {:induction false} NameReads(bytes: seq<Byte>, text: string)
    requires forall i | 0 <= i < |text| :: 0 as char < text[i] < 128 as char
    requires Holds(bytes, 0, Utf16(text)) && Holds(bytes, 2 * |text|, [0, 0])
    ensures NameOf(bytes) == Units(text)
    decreases |text|
  {
    if text == "" {
      assert bytes[..2] == bytes[0..2];
    } else {
      var first := text[0] as nat;
      assert bytes[..2] == bytes[0..2 * |text|][..2] == [first, 0];
      assert [first, 0][1..] == [0] && [0][1..] == [];
      assert Unpack(bytes[..2]) == first;
      assert Units(text) == [first] + Units(text[1..]);
      assert Utf16(text)[2..] == Utf16(text[1..]);
      HoldsSlice(bytes, 0, Utf16(text), 2, 2 * |text|);
      assert bytes[2..][0..2 * |text[1..]|] == Utf16(text[1..]);
      NameReads(bytes[2..], text[1..]);
    }
  }

  lemma EntryWritesApart(kind: seq<Byte>, unique: seq<Byte>, first: nat, last: nat, name: seq<Byte>)
    requires |kind| == |unique| == 16 && first < Pow256(8) && last < Pow256(8) && |name| <= 72
    ensures PairwiseApart(EntryWrites(kind, unique, first, last, name))
    ensures Within(EntryWrites(kind, unique, first, last, name), 0, 56 + |name|)
  {
  }

  lemma EntryNameReads(kind: seq<Byte>, unique: seq<Byte>, first: nat, last: nat, text: string)
    requires |kind| == |unique| == 16 && first < Pow256(8) && last < Pow256(8) && |text| <= 35
    requires forall i | 0 <= i < |text| :: 0 as char < text[i] < 128 as char
    ensures var table := Written(128 * 128, EntryWrites(kind, unique, first, last, Utf16(text)));
            NameOf(table[56..128]) == Units(text) && OnlyFirstUsed(table)
  {
    var log := EntryWrites(kind, unique, first, last, Utf16(text));
    var table := Written(128 * 128, log);
    EntryWritesApart(kind, unique, first, last, Utf16(text));
    WriteSurvives(128 * 128, log, 5);
    UnwrittenIsZero(128 * 128, log, Write(56 + 2 * |text|, Zeros(2)));
    UnwrittenIsZero(128 * 128, log, Write(128, Zeros(127 * 128)));
    var field := table[56..128];
    assert field[0..2 * |text|] == table[56..56 + 2 * |text|];
    assert field[2 * |text|..2 * |text| + 2] == table[56 + 2 * |text|..56 + 2 * |text| + 2];
    NameReads(field, text);
  }

  /** An entry array, wherever it lies, starts with the entry it was packed from. */
  lemma EntryParses(kind: seq<Byte>, unique: seq<Byte>, first: nat, last: nat, text: string)
    requires |kind| == |unique| == 16 && first < Pow256(8) && last < Pow256(8) && |text| <= 35
    requires forall i | 0 <= i < |text| :: 0 as char < text[i] < 128 as char
    ensures var table := Written(128 * 128, EntryWrites(kind, unique, first, last, Utf16(text)));
            FirstEntry(table) == Some(Entry(kind, unique, first, last, 0, Units(text)))
            && OnlyFirstUsed(table)
  {
    var log := EntryWrites(kind, unique, first, last, Utf16(text));
    var table := Written(128 * 128, log);
    assert Holds(table, 0, table);
    EntryWritesApart(kind, unique, first, last, Utf16(text));
    DataOfWrite(table, 0, 128 * 128, log, 0);
    DataOfWrite(table, 0, 128 * 128, log, 1);
    FieldOfWrite(table, 0, 128 * 128, log, 2, 8, first);
    FieldOfWrite(table, 0, 128 * 128, log, 3, 8, last);
    FieldOfWrite(table, 0, 128 * 128, log, 4, 8, 0);
    EntryNameReads(kind, unique, first, last, text);
  }

  lemma EntryTableFirst()
    ensures FirstEntry(EntryTable())
            == Some(Entry(ESP_GUID, PARTITION_GUID, PARTITION_START, PARTITION_END, 0, Units("BridgeVM ESP")))
    ensures OnlyFirstUsed(EntryTable())
  {
    EntryParses(ESP_GUID, PARTITION_GUID, PARTITION_START, PARTITION_END, "BridgeVM ESP");
  }

  const DISK_ID := Guid(0x6ee4_aa36, 0x4e86, 0x4e27, 0xa4ea, 0x364a_ed39_205f)
  const PARTITION_ID := Guid(0x34da_5450, 0x76c0, 0x4c02, 0xa6bb, 0xa892_0a89_3f59)

  const ESP_ID := Guid(0xc12a_7328, 0xf81f, 0x11d2, 0xba4b, 0x00a0_c93e_c93b)

  /** The identifiers as the source writes them. */
  lemma GuidsRead()
    ensures GuidOf(DISK_GUID) == DISK_ID && GuidOf(PARTITION_GUID) == PARTITION_ID
    ensures GuidOf(ESP_GUID) == ESP_ID
  {
    GuidReads(DISK_GUID, 0x6ee4_aa36, 0x4e86, 0x4e27, 0xa4ea, 0x364a_ed39_205f);
    GuidReads(PARTITION_GUID, 0x34da_5450, 0x76c0, 0x4c02, 0xa6bb, 0xa892_0a89_3f59);
    GuidReads(ESP_GUID, 0xc12a_7328, 0xf81f, 0x11d2, 0xba4b, 0x00a0_c93e_c93b);
  }

  function At(bytes: seq<Byte>, i: nat): int
    requires i < |bytes|
  {
    bytes[i]
  }

  lemma GuidReads(bytes: seq<Byte>, low: nat, mid: nat, high: nat, clock: nat, node: nat)
    requires |bytes| == 16
    requires low == At(bytes, 0) + 0x100 * (At(bytes, 1) + 0x100 * (At(bytes, 2) + 0x100 * At(bytes, 3)))
    requires mid == At(bytes, 4) + 0x100 * At(bytes, 5) && high == At(bytes, 6) + 0x100 * At(bytes, 7)
    requires clock == 0x100 * At(bytes, 8) + At(bytes, 9)
    requires node == 0x100 * (0x100 * (0x100 * (0x100 * (0x100 * At(bytes, 10) + At(bytes, 11)) + At(bytes, 12))
                                       + At(bytes, 13)) + At(bytes, 14)) + At(bytes, 15)
    ensures GuidOf(bytes) == Guid(low, mid, high, clock, node)
  {
    LittleEndian(bytes[0..4]);
    LittleEndian(bytes[4..6]);
    LittleEndian(bytes[6..8]);
    BigSix(bytes[10..16]);
    BigTwo(bytes[8..10]);
  }

  lemma LittleEndian(b: seq<Byte>)
    ensures |b| == 4 ==> Unpack(b) == At(b, 0) + 0x100 * (At(b, 1) + 0x100 * (At(b, 2) + 0x100 * At(b, 3)))
    ensures |b| == 2 ==> Unpack(b) == At(b, 0) + 0x100 * At(b, 1)
  {
    if |b| == 4 {
      assert b[1..][1..] == b[2..] && b[2..][1..] == b[3..] && b[3..][1..] == [];
    } else if |b| == 2 {
      assert b[1..][1..] == [];
    }
  }

  lemma BigEndianSteps(b: seq<Byte>)
    requires b != []
    ensures BigEndian(b) == 0x100 * BigEndian(b[..|b| - 1]) + At(b, |b| - 1)
  {
  }

  lemma BigTwo(b: seq<Byte>)
    requires |b| == 2
    ensures BigEndian(b) == 0x100 * At(b, 0) + At(b, 1)
  {
    BigEndianSteps(b);
    BigEndianSteps(b[..1]);
    assert b[..1][..0] == [];
  }

  lemma BigSix(b: seq<Byte>)
    requires |b| == 6
    ensures BigEndian(b)
            == 0x100 * (0x100 * (0x100 * (0x100 * (0x100 * At(b, 0) + At(b, 1)) + At(b, 2)) + At(b, 3)) + At(b, 4))
               + At(b, 5)
  {
    assert b[..5][..4] == b[..4] && b[..4][..3] == b[..3] && b[..3][..2] == b[..2];
    BigEndianSteps(b);
    BigEndianSteps(b[..5]);
    BigEndianSteps(b[..4]);
    BigEndianSteps(b[..3]);
    BigTwo(b[..2]);
  }

  // ---------- the volume ----------

  const VOLUME := Volume(PARTITION, 512, 4, 1, 2, 512, PARTITION_SECTORS, FAT_SECTORS, 0xF8)

  lemma VolumeShape()
    ensures VOLUME.IsFat16() && VOLUME.CountOfClusters() == CLUSTERS
    ensures VOLUME.base + Times(VOLUME.FirstDataSector(), 512) == DATA && VOLUME.ClusterBytes() == CLUSTER_BYTES
  {
    assert VOLUME.FirstDataSector() == 285;
  }

  lemma BpbApart(fatSectors: nat)
    requires fatSectors < Pow256(2)
    ensures PairwiseApart(BpbLog(fatSectors)) && Within(BpbLog(fatSectors), 11, 36)
  {
    var log := BpbLog(fatSectors);
    assert log[0].offset == 11 && log[0].End() == 13;
    assert log[1].offset == 13 && log[1].End() == 14;
    assert log[2].offset == 14 && log[2].End() == 16;
    assert log[3].offset == 16 && log[3].End() == 17;
    assert log[4].offset == 17 && log[4].End() == 19;
    assert log[5].offset == 19 && log[5].End() == 21;
    assert log[6].offset == 21 && log[6].End() == 22;
    assert log[7].offset == 22 && log[7].End() == 24;
    assert log[8].offset == 24 && log[8].End() == 26;
    assert log[9].offset == 26 && log[9].End() == 28;
    assert log[10].offset == 28 && log[10].End() == 32;
    assert log[11].offset == 32 && log[11].End() == 36;
  }

  lemma BootSectorApart()
    ensures PairwiseApart(BootSectorLog(FAT_SECTORS))
  {
    BpbApart(FAT_SECTORS);
    var bpb := BpbLog(FAT_SECTORS);
    ApartByRegion([BOOT_JUMP], bpb, 11, 36);
    assert Outside([BOOT_JUMP] + bpb, 36, 512);
    ApartByRegion([BOOT_JUMP] + bpb, [BOOT_LABELS, BOOT_SIGNATURE], 36, 512);
  }

  lemma BpbData(image: seq<Byte>, k: nat)
    requires |image| == IMAGE_BYTES && Holds(image, PARTITION, Written(SECTOR, BootSectorLog(FAT_SECTORS)))
    requires k < |BpbLog(FAT_SECTORS)|
    ensures Holds(image, PARTITION + BpbLog(FAT_SECTORS)[k].offset, BpbLog(FAT_SECTORS)[k].data)
  {
    BootSectorApart();
    DataOfWrite(image, PARTITION, SECTOR, BootSectorLog(FAT_SECTORS), 1 + k);
  }

  lemma BpbField(image: seq<Byte>, k: nat, width: nat, value: nat)
    requires |image| == IMAGE_BYTES && Holds(image, PARTITION, Written(SECTOR, BootSectorLog(FAT_SECTORS)))
    requires k < |BpbLog(FAT_SECTORS)| && value < Pow256(width) && BpbLog(FAT_SECTORS)[k].data == Pack(width, value)
    ensures PARTITION + BpbLog(FAT_SECTORS)[k].offset + width <= |image|
    ensures Field(image, PARTITION + BpbLog(FAT_SECTORS)[k].offset, width) == value
  {
    BpbData(image, k);
    HoldsField(image, PARTITION + BpbLog(FAT_SECTORS)[k].offset, width, value);
  }

  lemma BpbByte(image: seq<Byte>, k: nat, value: Byte)
    requires |image| == IMAGE_BYTES && Holds(image, PARTITION, Written(SECTOR, BootSectorLog(FAT_SECTORS)))
    requires k < |BpbLog(FAT_SECTORS)| && BpbLog(FAT_SECTORS)[k].data == [value]
    ensures PARTITION + BpbLog(FAT_SECTORS)[k].offset < |image|
    ensures image[PARTITION + BpbLog(FAT_SECTORS)[k].offset] == value
  {
    BpbData(image, k);
    var at := PARTITION + BpbLog(FAT_SECTORS)[k].offset;
    assert image[at] == image[at..at + 1][0];
  }

  lemma BootSectorReads(image: seq<Byte>)
    requires |image| == IMAGE_BYTES && Holds(image, PARTITION, Written(SECTOR, BootSectorLog(FAT_SECTORS)))
    ensures BootSectorAt(image, PARTITION)
  {
    BootSectorApart();
    DataOfWrite(image, PARTITION, SECTOR, BootSectorLog(FAT_SECTORS), 14);
    DataOfWrite(image, PARTITION, SECTOR, BootSectorLog(FAT_SECTORS), 0);
    var jump := image[PARTITION..PARTITION + 11];
    assert image[PARTITION] == jump[0] && image[PARTITION + 2] == jump[2];
    BpbByte(image, 6, 0xF8);
    BpbField(image, 8, 2, 63);
    BpbField(image, 9, 2, 255);
    BpbField(image, 10, 4, PARTITION_START);
  }

  lemma Mounts(image: seq<Byte>)
    requires |image| == IMAGE_BYTES && Holds(image, PARTITION, Written(SECTOR, BootSectorLog(FAT_SECTORS)))
    ensures Mount(image, PARTITION) == Some(VOLUME)
  {
    VolumeShape();
    BootSectorReads(image);
    BpbField(image, 0, 2, 512);
    BpbByte(image, 1, 4);
    BpbField(image, 2, 2, 1);
    BpbByte(image, 3, 2);
    BpbField(image, 4, 2, 512);
    BpbField(image, 5, 2, 0);
    BpbByte(image, 6, 0xF8);
    BpbField(image, 7, 2, FAT_SECTORS);
    BpbField(image, 11, 4, PARTITION_SECTORS);
  }

  lemma LabelReads(image: seq<Byte>, base: nat, serial: nat, volume: seq<Byte>, fileSystem: seq<Byte>)
    requires base + 512 <= |image| && serial < Pow256(4) && |volume| == 11 && |fileSystem| == 8
    requires Holds(image, base + 36, [0x80, 0x00, 0x29] + Pack(4, serial) + volume + fileSystem)
    ensures ReadLabel(image, base) == Some(Label(serial, volume, fileSystem))
  {
    var data := [0x80, 0x00, 0x29] + Pack(4, serial) + volume + fileSystem;
    HoldsPart(image, base + 36, data, 0, [0x80, 0x00, 0x29]);
    HoldsPart(image, base + 36, data, 3, Pack(4, serial));
    HoldsPart(image, base + 36, data, 7, volume);
    HoldsPart(image, base + 36, data, 18, fileSystem);
    HoldsField(image, base + 39, 4, serial);
    var head := image[base + 36..base + 39];
    assert head[0] == image[base + 36] && head[1] == image[base + 37] && head[2] == image[base + 38];
  }

  const VOLUME_LABEL := Label(0x4256_4D50, Ascii("BRIDGEVMPC "), Ascii("FAT16   "))

  lemma LabelsHeld(image: seq<Byte>)
    requires |image| == IMAGE_BYTES && Holds(image, PARTITION, Written(SECTOR, BootSectorLog(FAT_SECTORS)))
    ensures Holds(image, PARTITION + 36, BOOT_LABELS.data)
  {
    BootSectorApart();
    DataOfWrite(image, PARTITION, SECTOR, BootSectorLog(FAT_SECTORS), 13);
  }

  lemma LabelOf(image: seq<Byte>, base: nat, l: Label)
    requires base + 512 <= |image| && Holds(image, base + 36, BOOT_LABELS.data) && l == VOLUME_LABEL
    ensures ReadLabel(image, base) == Some(l)
  {
    LabelReads(image, base, l.serial, l.volume, l.fileSystem);
  }

  lemma VolumeLabelled(image: seq<Byte>)
    requires |image| == IMAGE_BYTES && Holds(image, PARTITION, Written(SECTOR, BootSectorLog(FAT_SECTORS)))
    ensures ReadLabel(image, PARTITION) == Some(VOLUME_LABEL)
  {
    LabelsHeld(image);
    LabelOf(image, PARTITION, VOLUME_LABEL);
  }

  /** Both FAT copies hold the application's table. */
  ghost predicate FatsHold(image: seq<Byte>, needed: nat)
    requires 4 + needed <= 0xFFFF
  {
    |image| == IMAGE_BYTES && Holds(image, FIRST_FAT, FatTable(needed)) && Holds(image, SECOND_FAT, FatTable(needed))
  }

  lemma FatEntryReads(image: seq<Byte>, copy: nat, cluster: nat, needed: nat)
    requires 4 + needed <= 0xFFFF && FatsHold(image, needed) && copy < 2 && cluster < CLUSTERS + 2
    ensures FatEntry(image, VOLUME, copy, cluster) == Some(FatValue(cluster, needed))
  {
    var fat := FIRST_FAT + copy * FAT_BYTES;
    assert fat == VOLUME.base + Times(VOLUME.reserved + Times(copy, VOLUME.fatSectors), VOLUME.sectorBytes);
    var entry := FatTable(needed)[2 * cluster..2 * cluster + 2];
    HoldsPart(image, fat, FatTable(needed), 2 * cluster, entry);
    FatTableEntry(needed, cluster);
  }

  lemma FatsClean(image: seq<Byte>, copy: nat, needed: nat)
    requires 4 + needed <= 0xFFFF && FatsHold(image, needed) && copy < 2
    ensures CleanFat(image, VOLUME, copy)
  {
    FatEntryReads(image, copy, 0, needed);
    FatEntryReads(image, copy, 1, needed);
  }

  /** The two copies agree, and every cluster behind the application's last is free. */
  ghost predicate FatsAgree(image: seq<Byte>, v: Volume, needed: nat) {
    forall cluster: nat | cluster < CLUSTERS + 2 ::
      && FatEntry(image, v, 0, cluster) == FatEntry(image, v, 1, cluster)
      && (FatEntry(image, v, 0, cluster) == Some(0) <==> cluster >= 4 + needed)
  }

  lemma HeldFatsAgree(image: seq<Byte>, v: Volume, needed: nat)
    requires 4 + needed <= 0xFFFF && FatsHold(image, needed) && v == VOLUME
    ensures FatsAgree(image, v, needed)
  {
    forall cluster: nat | cluster < CLUSTERS + 2
      ensures FatEntry(image, v, 0, cluster) == FatEntry(image, v, 1, cluster)
      ensures FatEntry(image, v, 0, cluster) == Some(0) <==> cluster >= 4 + needed
    {
      FatEntryReads(image, 0, cluster, needed);
      FatEntryReads(image, 1, cluster, needed);
    }
  }

  lemma ClusterReads(image: seq<Byte>, cluster: nat)
    requires |image| == IMAGE_BYTES && 2 <= cluster < CLUSTERS + 2
    ensures VOLUME.IsFat16()
    ensures var at := DATA + (cluster - 2) * CLUSTER_BYTES;
            at + CLUSTER_BYTES <= |image| && ReadCluster(image, VOLUME, cluster) == Some(image[at..at + CLUSTER_BYTES])
  {
    VolumeShape();
  }

  /** A directory of one cluster. */
  lemma DirectoryReads(image: seq<Byte>, copy: nat, cluster: nat, needed: nat, contents: seq<Byte>)
    requires 4 + needed <= 0xFFFF && FatsHold(image, needed) && copy < 2 && 2 <= cluster < 4
    requires |contents| == CLUSTER_BYTES && Holds(image, DATA + (cluster - 2) * CLUSTER_BYTES, contents)
    ensures VOLUME.IsFat16() && ReadChain(image, VOLUME, copy, cluster, VOLUME.CountOfClusters()) == Some(contents)
  {
    VolumeShape();
    ClusterReads(image, cluster);
    FatEntryReads(image, copy, cluster, needed);
  }

  lemma LinkReads(image: seq<Byte>, v: Volume, copy: nat, cluster: nat, budget: nat, bytes: seq<Byte>, next: nat,
                  rest: seq<Byte>)
    requires v.IsFat16() && budget > 0 && 2 <= cluster < v.CountOfClusters() + 2 && next < 0xFFF8
    requires ReadCluster(image, v, cluster) == Some(bytes) && FatEntry(image, v, copy, cluster) == Some(next)
    requires ReadChain(image, v, copy, next, budget - 1) == Some(rest)
    ensures ReadChain(image, v, copy, cluster, budget) == Some(bytes + rest)
  {
  }

  lemma LastReads(image: seq<Byte>, v: Volume, copy: nat, cluster: nat, budget: nat, bytes: seq<Byte>)
    requires v.IsFat16() && budget > 0 && 2 <= cluster < v.CountOfClusters() + 2
    requires ReadCluster(image, v, cluster) == Some(bytes) && FatEntry(image, v, copy, cluster) == Some(0xFFFF)
    ensures ReadChain(image, v, copy, cluster, budget) == Some(bytes)
  {
  }

  lemma ApplicationCluster(image: seq<Byte>, copy: nat, needed: nat, i: nat)
    requires needed + 4 < CLUSTERS && FatsHold(image, needed) && copy < 2 && i < needed
    ensures VOLUME.IsFat16() && 4 + i < VOLUME.CountOfClusters() + 2
    ensures var at := APPLICATION + i * CLUSTER_BYTES;
            && at + CLUSTER_BYTES <= APPLICATION + needed * CLUSTER_BYTES <= |image|
            && ReadCluster(image, VOLUME, 4 + i) == Some(image[at..at + CLUSTER_BYTES])
    ensures FatEntry(image, VOLUME, copy, 4 + i) == Some(if i + 1 == needed then 0xFFFF else 4 + (i + 1))
  {
    VolumeShape();
    ClusterReads(image, 4 + i);
    FatEntryReads(image, copy, 4 + i, needed);
  }

  /** From link `i` on, the application's chain yields its clusters from `i` on. */
  lemma {:induction false} ChainReads(image: seq<Byte>, copy: nat, needed: nat, i: nat, budget: nat)
    requires needed + 4 < CLUSTERS && FatsHold(image, needed) && copy < 2
    requires i < needed && budget >= needed - i
    ensures VOLUME.IsFat16() && APPLICATION + needed * CLUSTER_BYTES <= |image|
    ensures ReadChain(image, VOLUME, copy, 4 + i, budget)
            == Some(image[APPLICATION + i * CLUSTER_BYTES..APPLICATION + needed * CLUSTER_BYTES])
    decreases needed - i
  {
    ApplicationCluster(image, copy, needed, i);
    var at, end := APPLICATION + i * CLUSTER_BYTES, APPLICATION + needed * CLUSTER_BYTES;
    var bytes := image[at..at + CLUSTER_BYTES];
    if i + 1 < needed {
      ChainReads(image, copy, needed, i + 1, budget - 1);
      LinkReads(image, VOLUME, copy, 4 + i, budget, bytes, 4 + (i + 1), image[at + CLUSTER_BYTES..end]);
      assert bytes + image[at + CLUSTER_BYTES..end] == image[at..end];
    } else {
      LastReads(image, VOLUME, copy, 4 + i, budget, bytes);
    }
  }

  /** The fields of a directory entry, read where it lies. */
  ghost predicate EntryAt(directory: seq<Byte>, at: nat, name: seq<Byte>, entry: DirEntry) {
    && at + 32 <= |directory| && directory[at..at + 11] == name && directory[at + 11] == entry.attributes
    && Field(directory, at + 26, 2) == entry.cluster && Field(directory, at + 28, 4) == entry.size
  }

  lemma EntryLies(directory: seq<Byte>, at: nat, name: seq<Byte>, attributes: Byte, cluster: nat, size: nat)
    requires |name| == 11 && cluster < Pow256(2) && size < Pow256(4)
    requires Holds(directory, at, EntryBytes(name, attributes, cluster, size))
    ensures EntryAt(directory, at, name, DirEntry(attributes, cluster, size))
  {
    var entry := EntryBytes(name, attributes, cluster, size);
    EntryFields(name, attributes, cluster, size);
    HoldsPart(directory, at, entry, 0, entry[0..11]);
    HoldsPart(directory, at, entry, 11, entry[11..12]);
    HoldsPart(directory, at, entry, 26, entry[26..28]);
    HoldsPart(directory, at, entry, 28, entry[28..32]);
    assert directory[at + 11] == directory[at + 11..at + 12][0];
  }

  lemma FindsAt(directory: seq<Byte>, name: seq<Byte>, entry: DirEntry, at: nat)
    requires |name| == 11 && name[0] != 0 && entry.attributes / 8 % 2 == 0 && EntryAt(directory, at, name, entry)
    ensures Find(directory, name, at) == Some(entry)
  {
    assert directory[at] == directory[at..at + 11][0];
  }

  lemma FindSkips(directory: seq<Byte>, name: seq<Byte>, other: seq<Byte>, entry: DirEntry, at: nat)
    requires |other| == 11 && name != other && other[0] != 0 && EntryAt(directory, at, other, entry)
    ensures Find(directory, name, at) == Find(directory, name, at + 32)
  {
    assert directory[at] == directory[at..at + 11][0];
  }

  /** The third entry of a directory cluster that starts with two others. */
  lemma FindsThird(directory: seq<Byte>, dot: seq<Byte>, own: DirEntry, dots: seq<Byte>, parent: DirEntry,
                   name: seq<Byte>, entry: DirEntry)
    requires |name| == |dot| == |dots| == 11 && name != dot && name != dots
    requires 0 !in [name[0], dot[0], dots[0]] && entry.attributes / 8 % 2 == 0
    requires EntryAt(directory, 0, dot, own) && EntryAt(directory, 32, dots, parent)
    requires EntryAt(directory, 64, name, entry)
    ensures Find(directory, name, 0) == Some(entry)
  {
    FindSkips(directory, name, dot, own, 0);
    FindSkips(directory, name, dots, parent, 32);
    FindsAt(directory, name, entry, 64);
  }

  // ---------- the whole image ----------

  /** Each of the thirteen slices is still in place at the end. */
  lemma ImageHoldsGpt(application: seq<Byte>, crc: Checksum)
    requires FitsVolume(|application|)
    ensures var image := Image(application, crc);
            && Holds(image, SECTOR, HeaderBlock(1, SECTORS - 1, 2, crc))
            && Holds(image, (SECTORS - 1) * SECTOR, HeaderBlock(SECTORS - 1, 1, SECTORS - 33, crc))
            && Holds(image, 2 * SECTOR, EntryTable()) && Holds(image, (SECTORS - 33) * SECTOR, EntryTable())
  {
    ImageWritesApart(application, crc);
    SurvivesInHead(IMAGE_BYTES, GptLog(crc), VolumeLog(application), 2);
    SurvivesInHead(IMAGE_BYTES, GptLog(crc), VolumeLog(application), 3);
    SurvivesInHead(IMAGE_BYTES, GptLog(crc), VolumeLog(application), 4);
    SurvivesInHead(IMAGE_BYTES, GptLog(crc), VolumeLog(application), 5);
  }

  lemma ImageHoldsVolume(application: seq<Byte>, crc: Checksum, i: nat)
    requires FitsVolume(|application|) && i < |VolumeLog(application)|
    ensures var w := VolumeLog(application)[i]; Holds(Image(application, crc), w.offset, w.data)
  {
    ImageWritesApart(application, crc);
    SurvivesInTail(IMAGE_BYTES, GptLog(crc), VolumeLog(application), i);
  }

  /** Both headers are valid, name each other, seal the same entries and keep them out of the usable range. */
  lemma HeadersAgree(application: seq<Byte>, crc: Checksum)
    requires FitsVolume(|application|)
    ensures GptAgrees(Image(application, crc), crc)
  {
    var image := Image(application, crc);
    ImageHoldsGpt(application, crc);
    ImageHeaderValid(image, 1, SECTORS - 1, 2, crc);
    ImageHeaderValid(image, SECTORS - 1, 1, SECTORS - 33, crc);
  }

  ghost predicate GptAgrees(image: seq<Byte>, crc: Checksum) {
    && |image| == IMAGE_BYTES && ValidHeader(image, 1, crc) && ValidHeader(image, SECTORS - 1, crc)
    && var primary, backup := ParseHeader(image, SECTOR), ParseHeader(image, (SECTORS - 1) * SECTOR);
    && primary.alternateLba == SECTORS - 1 && backup.alternateLba == 1 && primary.disk == backup.disk
    && EntryArray(image, primary) == EntryArray(image, backup)
    && primary.firstUsable == backup.firstUsable && primary.lastUsable == backup.lastUsable
    && primary.EntriesEnd() <= primary.firstUsable
    && primary.lastUsable < backup.entriesLba && backup.EntriesEnd() <= SECTORS - 1
  }

  /** The volume's contents, with its two directory clusters as parameters. */
  ghost predicate VolumeHolds(image: seq<Byte>, application: seq<Byte>, efi: seq<Byte>, boot: seq<Byte>)
    requires FitsVolume(|application|)
  {
    && FatsHold(image, Needed(|application|)) && |efi| == |boot| == CLUSTER_BYTES
    && Holds(image, DATA, efi) && Holds(image, DATA + CLUSTER_BYTES, boot) && Holds(image, APPLICATION, application)
  }

  lemma ImageVolumeHolds(application: seq<Byte>, crc: Checksum)
    requires FitsVolume(|application|)
    ensures VolumeHolds(Image(application, crc), application, EfiBytes(), BootBytes(|application|))
    ensures Holds(Image(application, crc), ROOT, RootEntry())
  {
    var log := VolumeLog(application);
    ImageHoldsVolume(application, crc, 1);
    ImageHoldsVolume(application, crc, 2);
    ImageHoldsVolume(application, crc, 3);
    ImageHoldsVolume(application, crc, 4);
    ImageHoldsVolume(application, crc, 5);
    ImageHoldsVolume(application, crc, 6);
  }

  /** Two directories that are found and read lead to the file in the second. */
  lemma PathOpens(image: seq<Byte>, v: Volume, copy: nat, root: seq<Byte>, efi: Directory, boot: Directory)
    requires v.IsFat16() && CleanFat(image, v, copy) && ReadRoot(image, v) == Some(root)
    requires OpenDirectory(image, v, copy, Directory(0, root), EFI) == Some(efi)
    requires OpenDirectory(image, v, copy, efi, BOOT) == Some(boot)
    ensures ReadBootFile(image, v, copy) == OpenFile(image, v, copy, boot, BOOT_FILE)
  {
  }

  lemma DirectoryOpens(image: seq<Byte>, v: Volume, copy: nat, parent: Directory, name: seq<Byte>, entry: DirEntry,
                       contents: seq<Byte>)
    requires v.IsFat16() && Find(parent.bytes, name, 0) == Some(entry) && entry.IsDirectory()
    requires ReadChain(image, v, copy, entry.cluster, v.CountOfClusters()) == Some(contents)
    requires StartsWithDots(Directory(entry.cluster, contents), parent.cluster)
    ensures OpenDirectory(image, v, copy, parent, name) == Some(Directory(entry.cluster, contents))
  {
  }

  lemma FileOpens(image: seq<Byte>, v: Volume, copy: nat, parent: Directory, name: seq<Byte>, entry: DirEntry,
                  contents: seq<Byte>)
    requires v.IsFat16() && Find(parent.bytes, name, 0) == Some(entry) && !entry.IsDirectory()
    requires ReadChain(image, v, copy, entry.cluster, v.CountOfClusters()) == Some(contents) && entry.size <= |contents|
    ensures OpenFile(image, v, copy, parent, name) == Some(contents[..entry.size])
  {
  }

  lemma ApplicationReads(image: seq<Byte>, v: Volume, application: seq<Byte>, copy: nat)
    requires FitsVolume(|application|) && FatsHold(image, Needed(|application|)) && copy < 2 && v == VOLUME
    requires Holds(image, APPLICATION, application)
    ensures v.IsFat16()
    ensures var chain := ReadChain(image, v, copy, 4, v.CountOfClusters());
            chain.Some? && |application| <= |chain.value| && chain.value[..|application|] == application
  {
    VolumeShape();
    var needed, size := Needed(|application|), |application|;
    ChainReads(image, copy, needed, 0, v.CountOfClusters());
    assert image[APPLICATION..APPLICATION + needed * CLUSTER_BYTES][..size] == image[APPLICATION..APPLICATION + size];
  }

  lemma OneClusterOpens(image: seq<Byte>, v: Volume, copy: nat, needed: nat, parent: Directory, name: seq<Byte>,
                        cluster: nat, contents: seq<Byte>)
    requires 4 + needed <= 0xFFFF && FatsHold(image, needed)
    requires copy < 2 && 2 <= cluster < 4 && v == VOLUME && v.IsFat16()
    requires |contents| == CLUSTER_BYTES && Holds(image, DATA + (cluster - 2) * CLUSTER_BYTES, contents)
    requires Find(parent.bytes, name, 0) == Some(DirEntry(0x10, cluster, 0))
    requires StartsWithDots(Directory(cluster, contents), parent.cluster)
    ensures OpenDirectory(image, v, copy, parent, name) == Some(Directory(cluster, contents))
  {
    DirectoryReads(image, copy, cluster, needed, contents);
    DirectoryOpens(image, v, copy, parent, name, DirEntry(0x10, cluster, 0), contents);
  }

  /** The file the readers find on the volume is the application, through either FAT. */
  lemma VolumeBoots(image: seq<Byte>, v: Volume, application: seq<Byte>, copy: nat, root: seq<Byte>, efi: seq<Byte>,
                    boot: seq<Byte>)
    requires FitsVolume(|application|) && VolumeHolds(image, application, efi, boot) && copy < 2
    requires v == VOLUME && v.IsFat16() && ReadRoot(image, v) == Some(root)
    requires Find(root, EFI, 0) == Some(DirEntry(0x10, 2, 0)) && StartsWithDots(Directory(2, efi), 0)
    requires Find(efi, BOOT, 0) == Some(DirEntry(0x10, 3, 0)) && StartsWithDots(Directory(3, boot), 2)
    requires Find(boot, BOOT_FILE, 0) == Some(DirEntry(0x20, 4, |application|))
    ensures ReadBootFile(image, v, copy) == Some(application)
  {
    var needed := Needed(|application|);
    FatsClean(image, copy, needed);
    OneClusterOpens(image, v, copy, needed, Directory(0, root), EFI, 2, efi);
    OneClusterOpens(image, v, copy, needed, Directory(2, efi), BOOT, 3, boot);
    PathOpens(image, v, copy, root, Directory(2, efi), Directory(3, boot));
    ApplicationReads(image, v, application, copy);
    FileOpens(image, v, copy, Directory(3, boot), BOOT_FILE, DirEntry(0x20, 4, |application|),
              ReadChain(image, v, copy, 4, v.CountOfClusters()).value);
  }

  lemma RootReads(image: seq<Byte>)
    requires |image| == IMAGE_BYTES
    ensures VOLUME.IsFat16() && ROOT + 16384 <= |image|
    ensures ReadRoot(image, VOLUME) == Some(image[ROOT..ROOT + 16384])
  {
    VolumeShape();
    assert VOLUME.base + Times(VOLUME.reserved + Times(VOLUME.fats, VOLUME.fatSectors), VOLUME.sectorBytes) == ROOT;
  }

  lemma FindsFirst(root: seq<Byte>, name: seq<Byte>, attributes: Byte, cluster: nat)
    requires |name| == 11 && name[0] != 0 && attributes / 8 % 2 == 0 && cluster < Pow256(2)
    requires Holds(root, 0, EntryBytes(name, attributes, cluster, 0))
    ensures Find(root, name, 0) == Some(DirEntry(attributes, cluster, 0))
  {
    EntryLies(root, 0, name, attributes, cluster, 0);
    FindsAt(root, name, DirEntry(attributes, cluster, 0), 0);
  }

  lemma RootFindsEfi(image: seq<Byte>)
    requires |image| == IMAGE_BYTES && Holds(image, ROOT, RootEntry())
    ensures VOLUME.IsFat16()
    ensures ReadRoot(image, VOLUME).Some?
    ensures Find(ReadRoot(image, VOLUME).value, EFI, 0) == Some(DirEntry(0x10, 2, 0))
  {
    RootReads(image);
    var root := image[ROOT..ROOT + 16384];
    assert root[0..32] == image[ROOT..ROOT + 32] == RootEntry();
    FindsFirst(root, EFI, 0x10, 2);
  }

  /** A directory cluster written as two dot entries and a third. */
  lemma ThreeHold(n: nat, log: seq<Write>, dot: seq<Byte>, dots: seq<Byte>, third: seq<Byte>)
    requires log == [Write(0, dot), Write(32, dots), Write(64, third)] && InBounds(n, log)
    requires |dot| == |dots| == |third| == 32
    ensures Holds(Written(n, log), 0, dot) && Holds(Written(n, log), 32, dots) && Holds(Written(n, log), 64, third)
  {
    WriteSurvives(n, log, 0);
    WriteSurvives(n, log, 1);
    WriteSurvives(n, log, 2);
  }

  lemma ClusterFinds(own: nat, parent: nat, name: seq<Byte>, attributes: Byte, cluster: nat, size: nat)
    requires |name| == 11 && own < Pow256(2) && parent < Pow256(2) && cluster < Pow256(2) && size < Pow256(4)
    requires name[0] !in {0, '.' as int} && attributes / 8 % 2 == 0
    ensures var directory := Written(CLUSTER_BYTES, ClusterLog(own, parent, name, attributes, cluster, size));
            && Find(directory, name, 0) == Some(DirEntry(attributes, cluster, size))
            && StartsWithDots(Directory(own, directory), parent)
  {
    var log := ClusterLog(own, parent, name, attributes, cluster, size);
    var dot, dots := DOT, DOT_DOT;
    assert dot[0] == '.' as int && dots[0] == '.' as int;
    ThreeHold(CLUSTER_BYTES, log, log[0].data, log[1].data, log[2].data);
    EntriesFind(Written(CLUSTER_BYTES, log), dot, own, dots, parent, name, attributes, cluster, size);
  }

  lemma EntriesFind(directory: seq<Byte>, dot: seq<Byte>, own: nat, dots: seq<Byte>, parent: nat, name: seq<Byte>,
                    attributes: Byte, cluster: nat, size: nat)
    requires |name| == |dot| == |dots| == 11 && name[0] != 0 && attributes / 8 % 2 == 0
    requires dot[0] == dots[0] == '.' as int != name[0]
    requires own < Pow256(2) && parent < Pow256(2) && cluster < Pow256(2) && size < Pow256(4)
    requires Holds(directory, 0, EntryBytes(dot, 0x10, own, 0))
    requires Holds(directory, 32, EntryBytes(dots, 0x10, parent, 0))
    requires Holds(directory, 64, EntryBytes(name, attributes, cluster, size))
    ensures Find(directory, name, 0) == Some(DirEntry(attributes, cluster, size))
    ensures |directory| >= 64 && DotEntry(directory, 0, dot, own) && DotEntry(directory, 32, dots, parent)
  {
    EntryLies(directory, 0, dot, 0x10, own, 0);
    EntryLies(directory, 32, dots, 0x10, parent, 0);
    EntryLies(directory, 64, name, attributes, cluster, size);
    FindsThird(directory, dot, DirEntry(0x10, own, 0), dots, DirEntry(0x10, parent, 0), name,
               DirEntry(attributes, cluster, size));
  }

  lemma EfiFindsBoot()
    ensures Find(EfiBytes(), BOOT, 0) == Some(DirEntry(0x10, 3, 0))
    ensures StartsWithDots(Directory(2, EfiBytes()), 0)
  {
    ClusterFinds(2, 0, BOOT, 0x10, 3, 0);
  }

  lemma BootFindsFile(size: nat)
    requires size < Pow256(4)
    ensures Find(BootBytes(size), BOOT_FILE, 0) == Some(DirEntry(0x20, 4, size))
    ensures StartsWithDots(Directory(3, BootBytes(size)), 2)
  {
    ClusterFinds(3, 2, BOOT_FILE, 0x20, 4, size);
  }

  /** A valid header whose first entry is a system partition of the mounted size leads to that volume. */
  lemma HeaderLeadsToVolume(image: seq<Byte>, lba: nat, copy: nat, crc: Checksum, entries: seq<Byte>, entry: Entry,
                            v: Volume)
    requires ValidHeader(image, lba, crc) && Protective(image) && v.IsFat16() && copy < v.fats
    requires var h := ParseHeader(image, lba * SECTOR);
             && EntryArray(image, h) == Some(entries) && h.entrySize >= 128
             && h.firstUsable <= entry.first <= entry.last <= h.lastUsable
    requires FirstEntry(entries) == Some(entry) && entry.kind == EFI_SYSTEM_PARTITION
    requires Mount(image, entry.first * SECTOR) == Some(v)
    requires v.sectors * v.sectorBytes <= (entry.last + 1 - entry.first) * SECTOR
    ensures BootFile(image, lba, copy, crc) == ReadBootFile(image, v, copy)
  {
  }

  lemma HeaderFacts(application: seq<Byte>, crc: Checksum, lba: nat)
    requires FitsVolume(|application|) && (lba == 1 || lba == SECTORS - 1)
    ensures var image := Image(application, crc);
            && ValidHeader(image, lba, crc)
            && var h := ParseHeader(image, lba * SECTOR);
            && EntryArray(image, h) == Some(EntryTable()) && h.entrySize == 128 && h.disk == DISK_GUID
            && h.firstUsable == 34 && h.lastUsable == SECTORS - 34
  {
    var image := Image(application, crc);
    ImageHoldsGpt(application, crc);
    if lba == 1 {
      ImageHeaderValid(image, 1, SECTORS - 1, 2, crc);
    } else {
      ImageHeaderValid(image, SECTORS - 1, 1, SECTORS - 33, crc);
    }
  }

  /** The volume's root is found to lead to the first directory. */
  ghost predicate RootLeads(image: seq<Byte>, v: Volume) {
    && v.IsFat16() && ReadRoot(image, v).Some?
    && Find(ReadRoot(image, v).value, EFI, 0) == Some(DirEntry(0x10, 2, 0))
  }

  lemma ImageMounts(application: seq<Byte>, crc: Checksum)
    requires FitsVolume(|application|)
    ensures Mount(Image(application, crc), PARTITION) == Some(VOLUME) && RootLeads(Image(application, crc), VOLUME)
    ensures VolumeHolds(Image(application, crc), application, EfiBytes(), BootBytes(|application|))
  {
    ImageHoldsVolume(application, crc, 0);
    Mounts(Image(application, crc));
    ImageVolumeHolds(application, crc);
    RootFindsEfi(Image(application, crc));
  }

  /** The two directory clusters lead on to the file. */
  ghost predicate ClustersLead(efi: seq<Byte>, boot: seq<Byte>, size: nat) {
    && Find(efi, BOOT, 0) == Some(DirEntry(0x10, 3, 0)) && StartsWithDots(Directory(2, efi), 0)
    && Find(boot, BOOT_FILE, 0) == Some(DirEntry(0x20, 4, size)) && StartsWithDots(Directory(3, boot), 2)
  }

  lemma BuiltClustersLead(size: nat)
    requires size < Pow256(4)
    ensures ClustersLead(EfiBytes(), BootBytes(size), size)
  {
    EfiFindsBoot();
    BootFindsFile(size);
  }

  lemma RootedVolumeBoots(image: seq<Byte>, v: Volume, application: seq<Byte>, copy: nat, efi: seq<Byte>,
                          boot: seq<Byte>)
    requires FitsVolume(|application|) && copy < 2 && v == VOLUME && RootLeads(image, v)
    requires VolumeHolds(image, application, efi, boot) && ClustersLead(efi, boot, |application|)
    ensures ReadBootFile(image, v, copy) == Some(application)
  {
    VolumeBoots(image, v, application, copy, ReadRoot(image, v).value, efi, boot);
  }

  lemma ImageVolumeBoots(application: seq<Byte>, crc: Checksum, copy: nat, image: seq<Byte>, v: Volume)
    requires FitsVolume(|application|) && copy < 2 && image == Image(application, crc) && v == VOLUME
    ensures Mount(image, PARTITION) == Some(v) && v.IsFat16() && ReadBootFile(image, v, copy) == Some(application)
  {
    ImageMounts(application, crc);
    BuiltClustersLead(|application|);
    RootedVolumeBoots(image, v, application, copy, EfiBytes(), BootBytes(|application|));
  }

  /** The round trip: firmware that starts from either GPT header and uses either FAT reads back the application. */
  lemma ImageBoots(application: seq<Byte>, crc: Checksum, lba: nat, copy: nat)
    requires FitsVolume(|application|) && (lba == 1 || lba == SECTORS - 1) && copy < 2
    ensures BootFile(Image(application, crc), lba, copy, crc) == Some(application)
  {
    var image, v := Image(application, crc), VOLUME;
    HeaderFacts(application, crc, lba);
    ImageProtected(application, crc);
    EntryTableFirst();
    ImageVolumeBoots(application, crc, copy, image, v);
    HeaderLeadsToVolume(image, lba, copy, crc, EntryTable(), FirstEntry(EntryTable()).value, v);
  }

  /** What a disk and its one partition say of themselves. */
  ghost predicate Identified(image: seq<Byte>, lba: nat, crc: Checksum) {
    && ValidHeader(image, lba, crc)
    && var h := ParseHeader(image, lba * SECTOR);
    && var entries := EntryArray(image, h);
    && |h.disk| == 16 && GuidOf(h.disk) == DISK_ID && entries.Some? && OnlyFirstUsed(entries.value)
    && OnePartition(image, FirstEntry(entries.value))
  }

  ghost predicate OnePartition(image: seq<Byte>, entry: Option<Entry>) {
    && entry.Some? && |entry.value.kind| == |entry.value.unique| == 16
    && GuidOf(entry.value.kind) == ESP_ID && GuidOf(entry.value.unique) == PARTITION_ID
    && entry.value.first == 2048 && entry.value.last == 131_038 && |image| == 131_072 * 512
    && entry.value.attributes == 0 && entry.value.name == Units("BridgeVM ESP")
    && ReadLabel(image, entry.value.first * SECTOR) == Some(VOLUME_LABEL)
  }

  lemma ImageIdentified(application: seq<Byte>, crc: Checksum, lba: nat)
    requires FitsVolume(|application|) && (lba == 1 || lba == SECTORS - 1)
    ensures Identified(Image(application, crc), lba, crc)
  {
    HeaderFacts(application, crc, lba);
    EntryTableFirst();
    GuidsRead();
    ImageHoldsVolume(application, crc, 0);
    VolumeLabelled(Image(application, crc));
  }

  lemma ImageFatsAgree(application: seq<Byte>, crc: Checksum, image: seq<Byte>, v: Volume)
    requires FitsVolume(|application|) && image == Image(application, crc) && v == VOLUME
    ensures FatsAgree(image, v, Needed(|application|))
  {
    ImageVolumeHolds(application, crc);
    HeldFatsAgree(image, v, Needed(|application|));
  }
}
