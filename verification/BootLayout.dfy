/** What every buffer of the boot image ends up holding, as the list of slice assignments that fill it. */
module BootLayout {
  import opened Bytes
  import opened GptReader
  import FatGeometry
  import Fat16Reader

  const SECTOR := 512
  const SECTORS := 131072
  const PARTITION_START := 2048
  const PARTITION_END := SECTORS - 34
  const PARTITION_SECTORS := PARTITION_END - PARTITION_START + 1
  const CLUSTER_BYTES := 2048
  /** Settled by the loop: see `GeometryOfPartition`. */
  const FAT_SECTORS := 126
  const CLUSTERS := 32176

  const IMAGE_BYTES := SECTORS * SECTOR
  const PARTITION := PARTITION_START * SECTOR
  const FIRST_FAT := PARTITION + SECTOR
  const FAT_BYTES := FAT_SECTORS * SECTOR
  const SECOND_FAT := FIRST_FAT + FAT_BYTES
  const ROOT := SECOND_FAT + FAT_BYTES
  const DATA := ROOT + FatGeometry.ROOT_SECTORS * SECTOR
  const APPLICATION := DATA + 2 * CLUSTER_BYTES

  const DISK_GUID: seq<Byte> :=
    [0x36, 0xaa, 0xe4, 0x6e, 0x86, 0x4e, 0x27, 0x4e, 0xa4, 0xea, 0x36, 0x4a, 0xed, 0x39, 0x20, 0x5f]
  const PARTITION_GUID: seq<Byte> :=
    [0x50, 0x54, 0xda, 0x34, 0xc0, 0x76, 0x02, 0x4c, 0xa6, 0xbb, 0xa8, 0x92, 0x0a, 0x89, 0x3f, 0x59]
  const ESP_GUID: seq<Byte> :=
    [0x28, 0x73, 0x2a, 0xc1, 0x1f, 0xf8, 0xd2, 0x11, 0xba, 0x4b, 0x00, 0xa0, 0xc9, 0x3e, 0xc9, 0x3b]

  lemma GeometryOfPartition()
    ensures FatGeometry.Settles(PARTITION_SECTORS) && FatGeometry.Limit(PARTITION_SECTORS) == FAT_SECTORS
    ensures FatGeometry.Clusters(PARTITION_SECTORS, FAT_SECTORS) == CLUSTERS
  {
  }

  /** Clusters an application of `n` bytes occupies. */
  function Needed(n: nat): nat { (n + CLUSTER_BYTES - 1) / CLUSTER_BYTES }

  // ---------- directory entries ----------

  const DATE := 46 * 512 + 5 * 32 + 7
  const TIME := 13 * 2048 + 30 * 32

  function EntryLog(name: seq<Byte>, attributes: Byte, cluster: nat, size: nat): (log: seq<Write>)
    requires |name| == 11 && cluster < Pow256(2) && size < Pow256(4)
    ensures InBounds(32, log)
  {
    [Write(0, name), Write(11, [attributes]),
     Write(14, Pack(2, TIME)), Write(16, Pack(2, DATE)), Write(18, Pack(2, DATE)),
     Write(22, Pack(2, TIME)), Write(24, Pack(2, DATE)), Write(26, Pack(2, cluster)), Write(28, Pack(4, size))]
  }

  function EntryBytes(name: seq<Byte>, attributes: Byte, cluster: nat, size: nat): (entry: seq<Byte>)
    requires |name| == 11 && cluster < Pow256(2) && size < Pow256(4)
    ensures |entry| == 32
  {
    Written(32, EntryLog(name, attributes, cluster, size))
  }

  function RootEntry(): (entry: seq<Byte>)
    ensures |entry| == 32
  {
    EntryBytes(Ascii("EFI        "), 0x10, 2, 0)
  }

  lemma EntryFields(name: seq<Byte>, attributes: Byte, cluster: nat, size: nat)
    requires |name| == 11 && cluster < Pow256(2) && size < Pow256(4)
    ensures var entry := EntryBytes(name, attributes, cluster, size);
            && entry[0..11] == name && entry[11] == attributes
            && Field(entry, 26, 2) == cluster && Field(entry, 28, 4) == size
  {
    var log := EntryLog(name, attributes, cluster, size);
    var entry := Written(32, log);
    assert Holds(entry, 0, entry);
    EntryWritesApart(name, attributes, cluster, size);
    DataOfWrite(entry, 0, 32, log, 0);
    DataOfWrite(entry, 0, 32, log, 1);
    assert entry[11] == entry[11..12][0];
    FieldOfWrite(entry, 0, 32, log, 7, 2, cluster);
    FieldOfWrite(entry, 0, 32, log, 8, 4, size);
  }

  lemma EntryWritesApart(name: seq<Byte>, attributes: Byte, cluster: nat, size: nat)
    requires |name| == 11 && cluster < Pow256(2) && size < Pow256(4)
    ensures PairwiseApart(EntryLog(name, attributes, cluster, size))
  {
  }

  /** Every entry was created, read and written on 7 May 2026 at 13:30. */
  lemma EntryStamps(name: seq<Byte>, attributes: Byte, cluster: nat, size: nat)
    requires |name| == 11 && cluster < Pow256(2) && size < Pow256(4)
    ensures var day, hour := (2026, 5, 7), (13, 30, 0);
            Fat16Reader.StampsOf(EntryBytes(name, attributes, cluster, size), 0)
            == Fat16Reader.Stamps((day, hour), day, (day, hour))
  {
    var entry := EntryBytes(name, attributes, cluster, size);
    EntryWord(name, attributes, cluster, size, 2, TIME);
    EntryWord(name, attributes, cluster, size, 3, DATE);
    EntryWord(name, attributes, cluster, size, 4, DATE);
    EntryWord(name, attributes, cluster, size, 5, TIME);
    EntryWord(name, attributes, cluster, size, 6, DATE);
    StampWords(entry, TIME, DATE);
  }

  lemma EntryWord(name: seq<Byte>, attributes: Byte, cluster: nat, size: nat, i: nat, word: nat)
    requires |name| == 11 && cluster < Pow256(2) && size < Pow256(4) && 2 <= i < 7 && word < Pow256(2)
    requires EntryLog(name, attributes, cluster, size)[i].data == Pack(2, word)
    ensures var at := EntryLog(name, attributes, cluster, size)[i].offset;
            at + 2 <= 32 && Field(EntryBytes(name, attributes, cluster, size), at, 2) == word
  {
    var log := EntryLog(name, attributes, cluster, size);
    var entry := Written(32, log);
    assert Holds(entry, 0, entry);
    EntryWritesApart(name, attributes, cluster, size);
    FieldOfWrite(entry, 0, 32, log, i, 2, word);
  }

  lemma StampWords(entry: seq<Byte>, time: nat, date: nat)
    requires |entry| == 32 && time == TIME && date == DATE
    requires Field(entry, 14, 2) == Field(entry, 22, 2) == time
    requires Field(entry, 16, 2) == Field(entry, 18, 2) == Field(entry, 24, 2) == date
    ensures var day, hour := (2026, 5, 7), (13, 30, 0);
            Fat16Reader.StampsOf(entry, 0) == Fat16Reader.Stamps((day, hour), day, (day, hour))
  {
  }

  // ---------- the two directory clusters ----------

  function ClusterLog(own: nat, parent: nat, name: seq<Byte>, attributes: Byte, cluster: nat, size: nat)
    : (log: seq<Write>)
    requires |name| == 11 && own < Pow256(2) && parent < Pow256(2) && cluster < Pow256(2) && size < Pow256(4)
    ensures InBounds(CLUSTER_BYTES, log)
  {
    [Write(0, EntryBytes(Ascii(".          "), 0x10, own, 0)),
     Write(32, EntryBytes(Ascii("..         "), 0x10, parent, 0)),
     Write(64, EntryBytes(name, attributes, cluster, size))]
  }

  function EfiLog(): (log: seq<Write>)
    ensures InBounds(CLUSTER_BYTES, log)
  {
    ClusterLog(2, 0, Ascii("BOOT       "), 0x10, 3, 0)
  }

  function BootLog(size: nat): (log: seq<Write>)
    requires size < Pow256(4)
    ensures InBounds(CLUSTER_BYTES, log)
  {
    ClusterLog(3, 2, Ascii("BOOTAA64EFI"), 0x20, 4, size)
  }

  function EfiBytes(): (r: seq<Byte>)
    ensures |r| == CLUSTER_BYTES
  {
    Written(CLUSTER_BYTES, EfiLog())
  }

  function BootBytes(size: nat): (r: seq<Byte>)
    requires size < Pow256(4)
    ensures |r| == CLUSTER_BYTES
  {
    Written(CLUSTER_BYTES, BootLog(size))
  }

  // ---------- the FAT ----------

  /** Entry `cluster` when the application takes `needed` clusters from cluster 4 on. */
  function FatValue(cluster: nat, needed: nat): (v: nat)
    requires 4 + needed <= 0xFFFF
    ensures v < 0x1_0000
  {
    if cluster == 0 then 0xFFF8
    else if cluster < 4 then 0xFFFF
    else if cluster + 1 == 4 + needed then 0xFFFF
    else if cluster < 4 + needed then cluster + 1
    else 0
  }

  function FatByte(value: nat, k: nat): Byte { if k % 2 == 0 then value % 256 else value / 256 % 256 }

  function FatTable(needed: nat): (fat: seq<Byte>)
    requires 4 + needed <= 0xFFFF
    ensures |fat| == FAT_BYTES
  {
    seq(FAT_BYTES, k requires 0 <= k < FAT_BYTES => FatByte(FatValue(k / 2, needed), k))
  }

  lemma FatTableEntry(needed: nat, cluster: nat)
    requires 4 + needed <= 0xFFFF && 2 * cluster + 2 <= FAT_BYTES
    ensures Unpack(FatTable(needed)[2 * cluster..2 * cluster + 2]) == FatValue(cluster, needed)
  {
    var v := FatValue(cluster, needed);
    var entry := FatTable(needed)[2 * cluster..2 * cluster + 2];
    assert Pack(1, v / 256) == [v / 256 % 256];
    assert (2 * cluster + 1) / 2 == cluster && (2 * cluster + 1) % 2 == 1;
    assert entry == [v % 256, v / 256 % 256] == Pack(2, v);
    UnpackPack(2, v);
  }

  // ---------- the boot sector ----------

  function BpbLog(fatSectors: nat): (log: seq<Write>)
    requires fatSectors < Pow256(2)
    ensures InBounds(SECTOR, log)
  {
    [Write(11, Pack(2, SECTOR)), Write(13, [FatGeometry.SECTORS_PER_CLUSTER]), Write(14, Pack(2, 1)), Write(16, [2]),
     Write(17, Pack(2, 512)), Write(19, Pack(2, 0)), Write(21, [0xF8]), Write(22, Pack(2, fatSectors)),
     Write(24, Pack(2, 63)), Write(26, Pack(2, 255)),
     Write(28, Pack(4, PARTITION_START)), Write(32, Pack(4, PARTITION_SECTORS))]
  }

  const BOOT_JUMP := Write(0, [0xeb, 0x3c, 0x90] + Ascii("BRIDGEVM"))
  const BOOT_LABELS :=
    Write(36, [0x80, 0x00, 0x29] + Pack(4, 0x42564D50) + Ascii("BRIDGEVMPC ") + Ascii("FAT16   "))
  const BOOT_SIGNATURE := Write(510, [0x55, 0xaa])

  function BootSectorLog(fatSectors: nat): (log: seq<Write>)
    requires fatSectors < Pow256(2)
    ensures InBounds(SECTOR, log)
  {
    [BOOT_JUMP] + BpbLog(fatSectors) + [BOOT_LABELS, BOOT_SIGNATURE]
  }

  // ---------- GPT ----------

  function HeaderFieldsLog(current: nat, backup: nat, entriesLba: nat, entriesCrc: Word32): (log: seq<Write>)
    requires current < Pow256(8) && backup < Pow256(8) && entriesLba < Pow256(8)
    ensures InBounds(SECTOR, log)
  {
    [Write(0, Ascii("EFI PART")), Write(8, Pack(4, 0x0001_0000)), Write(12, Pack(4, 92)),
     Write(24, Pack(8, current)), Write(32, Pack(8, backup)), Write(40, Pack(8, 34)), Write(48, Pack(8, SECTORS - 34)),
     Write(56, DISK_GUID), Write(72, Pack(8, entriesLba)), Write(80, Pack(4, 128)), Write(84, Pack(4, 128)),
     Write(88, Pack(4, entriesCrc))]
  }

  function HeaderLog(current: nat, backup: nat, entriesLba: nat, entriesCrc: Word32, crc: Checksum): (log: seq<Write>)
    requires current < Pow256(8) && backup < Pow256(8) && entriesLba < Pow256(8)
    ensures InBounds(SECTOR, log)
  {
    var fields := HeaderFieldsLog(current, backup, entriesLba, entriesCrc);
    fields + [Write(16, Pack(4, crc(Written(SECTOR, fields)[..92])))]
  }

  /** The first partition entry; the other 127 stay zero. */
  function EntryWrites(kind: seq<Byte>, unique: seq<Byte>, first: nat, last: nat, name: seq<Byte>): (log: seq<Write>)
    requires |kind| == |unique| == 16 && first < Pow256(8) && last < Pow256(8) && |name| <= 72
    ensures InBounds(128 * 128, log)
  {
    [Write(0, kind), Write(16, unique),
     Write(32, Pack(8, first)), Write(40, Pack(8, last)), Write(48, Pack(8, 0)), Write(56, name)]
  }

  function EntriesLog(): (log: seq<Write>)
    ensures InBounds(128 * 128, log)
  {
    EntryWrites(ESP_GUID, PARTITION_GUID, PARTITION_START, PARTITION_END, Utf16("BridgeVM ESP"))
  }

  function Utf16(text: string): (r: seq<Byte>)
    requires forall i | 0 <= i < |text| :: text[i] < 128 as char
    ensures |r| == 2 * |text|
  {
    seq(2 * |text|, k requires 0 <= k < 2 * |text| => if k % 2 == 0 then text[k / 2] as int else 0)
  }

  function EntryTable(): (r: seq<Byte>)
    ensures |r| == 128 * 128
  {
    Written(128 * 128, EntriesLog())
  }

  // ---------- the image ----------

  function HeaderBlock(current: nat, backup: nat, entriesLba: nat, crc: Checksum): (r: seq<Byte>)
    requires current < Pow256(8) && backup < Pow256(8) && entriesLba < Pow256(8)
    ensures |r| == SECTOR
  {
    Written(SECTOR, HeaderLog(current, backup, entriesLba, crc(EntryTable()), crc))
  }

  /** `build` before the FAT volume, for any contents of the right sizes. */
  function GptWrites(mbr: seq<Byte>, entries: seq<Byte>, primary: seq<Byte>, backup: seq<Byte>): (log: seq<Write>)
    requires |mbr| == 16 && |entries| == 128 * 128 && |primary| == |backup| == SECTOR
    ensures InBounds(IMAGE_BYTES, log)
  {
    [Write(510, [0x55, 0xaa]), Write(446, mbr), Write(2 * SECTOR, entries), Write((SECTORS - 33) * SECTOR, entries),
     Write(SECTOR, primary), Write((SECTORS - 1) * SECTOR, backup)]
  }

  /** The protective record: type 0xEE from block 1 to the end. */
  function ProtectiveRecord(): (r: seq<Byte>)
    ensures |r| == 16
  {
    [0x00, 0x00, 0x02, 0x00, 0xee, 0xff, 0xff, 0xff] + (Pack(4, 1) + Pack(4, SECTORS - 1))
  }

  function GptLog(crc: Checksum): (log: seq<Write>)
    ensures InBounds(IMAGE_BYTES, log)
  {
    GptWrites(ProtectiveRecord(), EntryTable(), HeaderBlock(1, SECTORS - 1, 2, crc),
              HeaderBlock(SECTORS - 1, 1, SECTORS - 33, crc))
  }

  predicate FitsVolume(n: nat) { Needed(n) != 0 && Needed(n) + 4 < CLUSTERS }

  /** `build_fat` after the boot sector, for any contents of the right sizes. */
  function VolumeTail(fat: seq<Byte>, root: seq<Byte>, efi: seq<Byte>, bootDir: seq<Byte>, application: seq<Byte>)
    : (log: seq<Write>)
    requires |fat| == FAT_BYTES && |root| == 32 && |efi| == |bootDir| == CLUSTER_BYTES && FitsVolume(|application|)
    ensures InBounds(IMAGE_BYTES, log)
  {
    [Write(FIRST_FAT, fat), Write(SECOND_FAT, fat), Write(ROOT, root),
     Write(DATA, efi), Write(DATA + CLUSTER_BYTES, bootDir), Write(APPLICATION, application)]
  }

  function VolumeWrites(boot: seq<Byte>, fat: seq<Byte>, root: seq<Byte>, efi: seq<Byte>, bootDir: seq<Byte>,
                        application: seq<Byte>): (log: seq<Write>)
    requires |boot| == SECTOR && |fat| == FAT_BYTES && |root| == 32 && |efi| == |bootDir| == CLUSTER_BYTES
    requires FitsVolume(|application|)
    ensures InBounds(IMAGE_BYTES, log)
  {
    [Write(PARTITION, boot)] + VolumeTail(fat, root, efi, bootDir, application)
  }

  function VolumeLog(application: seq<Byte>): (log: seq<Write>)
    requires FitsVolume(|application|)
    ensures InBounds(IMAGE_BYTES, log)
  {
    VolumeWrites(Written(SECTOR, BootSectorLog(FAT_SECTORS)), FatTable(Needed(|application|)),
                 RootEntry(), EfiBytes(),
                 BootBytes(|application|), application)
  }

  function ImageLog(application: seq<Byte>, crc: Checksum): (log: seq<Write>)
    requires FitsVolume(|application|)
    ensures InBounds(IMAGE_BYTES, log)
  {
    GptLog(crc) + VolumeLog(application)
  }

  /** Everything `build` leaves on disk. */
  function Image(application: seq<Byte>, crc: Checksum): (image: seq<Byte>)
    requires FitsVolume(|application|)
    ensures |image| == IMAGE_BYTES
  {
    Written(IMAGE_BYTES, ImageLog(application, crc))
  }

  ghost predicate Within(log: seq<Write>, lo: nat, hi: nat) {
    forall i | 0 <= i < |log| :: lo <= log[i].offset && log[i].End() <= hi
  }

  ghost predicate Outside(log: seq<Write>, lo: nat, hi: nat) {
    forall i | 0 <= i < |log| :: log[i].End() <= lo || hi <= log[i].offset
  }

  lemma ApartByRegion(a: seq<Write>, b: seq<Write>, lo: nat, hi: nat)
    requires PairwiseApart(a) && PairwiseApart(b) && Outside(a, lo, hi) && Within(b, lo, hi)
    ensures PairwiseApart(a + b)
  {
  }

  lemma GptWritesApart(mbr: seq<Byte>, entries: seq<Byte>, primary: seq<Byte>, backup: seq<Byte>)
    requires |mbr| == 16 && |entries| == 128 * 128 && |primary| == |backup| == SECTOR
    ensures PairwiseApart(GptWrites(mbr, entries, primary, backup))
    ensures Outside(GptWrites(mbr, entries, primary, backup), PARTITION, (PARTITION_END + 1) * SECTOR)
  {
  }

  lemma VolumeWritesApart(boot: seq<Byte>, fat: seq<Byte>, root: seq<Byte>, efi: seq<Byte>, bootDir: seq<Byte>,
                          application: seq<Byte>)
    requires |boot| == SECTOR && |fat| == FAT_BYTES && |root| == 32 && |efi| == |bootDir| == CLUSTER_BYTES
    requires FitsVolume(|application|)
    ensures PairwiseApart(VolumeWrites(boot, fat, root, efi, bootDir, application))
    ensures Within(VolumeWrites(boot, fat, root, efi, bootDir, application), PARTITION, (PARTITION_END + 1) * SECTOR)
  {
  }

  lemma GptLogApart(crc: Checksum)
    ensures PairwiseApart(GptLog(crc)) && Outside(GptLog(crc), PARTITION, (PARTITION_END + 1) * SECTOR)
  {
    GptWritesApart(ProtectiveRecord(), EntryTable(), HeaderBlock(1, SECTORS - 1, 2, crc),
                   HeaderBlock(SECTORS - 1, 1, SECTORS - 33, crc));
  }

  lemma VolumeLogApart(application: seq<Byte>)
    requires FitsVolume(|application|)
    ensures PairwiseApart(VolumeLog(application))
    ensures Within(VolumeLog(application), PARTITION, (PARTITION_END + 1) * SECTOR)
  {
    VolumeWritesApart(Written(SECTOR, BootSectorLog(FAT_SECTORS)), FatTable(Needed(|application|)),
                      RootEntry(), EfiBytes(),
                      BootBytes(|application|), application);
  }

  /** No two of the image's thirteen slices overlap; the volume's stay inside the partition, the others outside. */
  lemma ImageWritesApart(application: seq<Byte>, crc: Checksum)
    requires FitsVolume(|application|)
    ensures PairwiseApart(ImageLog(application, crc))
    ensures Within(VolumeLog(application), PARTITION, (PARTITION_END + 1) * SECTOR)
    ensures Outside(GptLog(crc), PARTITION, (PARTITION_END + 1) * SECTOR)
  {
    GptLogApart(crc);
    VolumeLogApart(application);
    ApartByRegion(GptLog(crc), VolumeLog(application), PARTITION, (PARTITION_END + 1) * SECTOR);
  }
}
