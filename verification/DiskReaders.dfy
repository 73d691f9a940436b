/** What firmware does with the image, written from the formats' own documents and from nothing in the builder. */

/** The protective MBR: UEFI Specification 2.10, section 5.2.3. */
module MbrReader {
  import opened Bytes

  datatype Record = Record(bootIndicator: Byte, startingChs: seq<Byte>, osType: Byte, endingChs: seq<Byte>,
                           startingLba: nat, sizeInLba: nat)

  function RecordAt(image: seq<Byte>, b: nat): Record
    requires b + 16 <= |image|
  {
    Record(image[b], image[b + 1..b + 4], image[b + 4], image[b + 5..b + 8], Field(image, b + 8, 4),
           Field(image, b + 12, 4))
  }

  /** One record of type 0xEE from block 1 to the end of the disk, whose last CHS address cannot be represented; the
      other three records are zero. */
  predicate Protective(image: seq<Byte>) {
    && |image| >= 1024 && image[510..512] == [0x55, 0xAA]
    && RecordAt(image, 446) == Record(0x00, [0x00, 0x02, 0x00], 0xEE, [0xFF, 0xFF, 0xFF], 1, LastBlock(image))
    && image[462..510] == Zeros(48)
  }

  function LastBlock(image: seq<Byte>): nat
    requires |image| >= 1024
  {
    if |image| / 512 - 1 < 0xFFFF_FFFF then |image| / 512 - 1 else 0xFFFF_FFFF
  }
}

/** GPT: UEFI Specification 2.10, sections 5.3.2 and 5.3.3. */
module GptReader {
  import opened Bytes
  import opened Results

  const BLOCK := 512

  type Word32 = w: int | 0 <= w < 0x1_0000_0000

  /** Any checksum: nothing here depends on it being CRC-32. */
  type Checksum = seq<Byte> -> Word32

  // ---------- GUIDs: UEFI Specification 2.10, appendix A ----------

  /** The five numbers a GUID is written with. */
  datatype Guid = Guid(timeLow: nat, timeMid: nat, timeHigh: nat, clock: nat, node: nat)

  /** The first three are little-endian words, the others are stored in the order they are written. */
  function GuidOf(bytes: seq<Byte>): Guid
    requires |bytes| == 16
  {
    Guid(Field(bytes, 0, 4), Field(bytes, 4, 2), Field(bytes, 6, 2), BigEndian(bytes[8..10]),
         BigEndian(bytes[10..16]))
  }

  function BigEndian(bytes: seq<Byte>): nat {
    if bytes == [] then 0 else 256 * BigEndian(bytes[..|bytes| - 1]) + bytes[|bytes| - 1]
  }

  // ---------- the header and its entries ----------

  datatype Header = Header(size: nat, crc: nat, myLba: nat, alternateLba: nat, firstUsable: nat, lastUsable: nat,
                           disk: seq<Byte>, entriesLba: nat, entries: nat, entrySize: nat, entriesCrc: nat) {
    /** First block after this header's entry array. */
    function EntriesEnd(): nat { entriesLba + (entries * entrySize + BLOCK - 1) / BLOCK }
  }

  /** The header in the block at byte `b`. */
  function ParseHeader(image: seq<Byte>, b: nat): Header
    requires b + BLOCK <= |image|
  {
    Header(Field(image, b + 12, 4), Field(image, b + 16, 4), Field(image, b + 24, 8), Field(image, b + 32, 8),
           Field(image, b + 40, 8), Field(image, b + 48, 8), image[b + 56..b + 72], Field(image, b + 72, 8),
           Field(image, b + 80, 4), Field(image, b + 84, 4), Field(image, b + 88, 4))
  }

  /** The header bytes with the CRC field zeroed, as the CRC is defined over them. */
  function Sealed(image: seq<Byte>, b: nat, size: nat): (r: seq<Byte>)
    requires 20 <= size <= BLOCK && b + BLOCK <= |image|
    ensures |r| == size
  {
    image[b..b + 16] + Zeros(4) + image[b + 20..b + size]
  }

  function EntryArray(image: seq<Byte>, h: Header): Option<seq<Byte>> {
    Take(image, h.entriesLba * BLOCK, h.entries * h.entrySize)
  }

  /** The validity test of section 5.3.2: signature, header CRC, own LBA, entry-array CRC. */
  predicate ValidHeader(image: seq<Byte>, lba: nat, crc: Checksum) {
    var b := lba * BLOCK;
    && b + BLOCK <= |image|
    && image[b..b + 8] == Ascii("EFI PART") && Field(image, b + 8, 4) == 0x0001_0000
    && var h := ParseHeader(image, b);
    && 92 <= h.size <= BLOCK && h.crc == crc(Sealed(image, b, h.size)) && h.myLba == lba
    && var entries := EntryArray(image, h);
    && entries.Some? && h.entriesCrc == crc(entries.value)
  }

  /** `name` in UCS-2 units, up to the first null. */
  datatype Entry = Entry(kind: seq<Byte>, unique: seq<Byte>, first: nat, last: nat, attributes: nat, name: seq<nat>)

  function FirstEntry(entries: seq<Byte>): Option<Entry> {
    if |entries| < 128 then None
    else Some(Entry(entries[0..16], entries[16..32], Field(entries, 32, 8), Field(entries, 40, 8),
                    Field(entries, 48, 8), NameOf(entries[56..128])))
  }

  function NameOf(bytes: seq<Byte>): seq<nat> {
    if |bytes| < 2 || bytes[..2] == [0, 0] then [] else [Unpack(bytes[..2])] + NameOf(bytes[2..])
  }

  /** The entries behind the first are unused: their type is the zero GUID. */
  predicate OnlyFirstUsed(entries: seq<Byte>) { |entries| >= 128 && entries[128..] == Zeros(|entries| - 128) }
}

/** FAT16: the Microsoft Extensible Firmware Initiative FAT32 File System Specification, version 1.03. */
module Fat16Reader {
  import opened Bytes
  import opened Results

  function Times(a: nat, b: nat): nat { a * b }

  datatype Volume = Volume(base: nat, sectorBytes: nat, clusterSectors: nat, reserved: nat, fats: nat,
                           rootEntries: nat, sectors: nat, fatSectors: nat, media: Byte) {
    function RootSectors(): nat
      requires sectorBytes > 0
    {
      (rootEntries * 32 + sectorBytes - 1) / sectorBytes
    }

    function FirstDataSector(): nat
      requires sectorBytes > 0
    {
      reserved + Times(fats, fatSectors) + RootSectors()
    }

    function CountOfClusters(): nat
      requires sectorBytes > 0 && clusterSectors > 0 && FirstDataSector() <= sectors
    {
      (sectors - FirstDataSector()) / clusterSectors
    }

    function ClusterBytes(): nat { Times(clusterSectors, sectorBytes) }

    /** "FAT Type Determination": FAT16 by the count of clusters and by nothing else. */
    predicate IsFat16() {
      && sectorBytes > 0 && clusterSectors > 0 && FirstDataSector() <= sectors
      && 4085 <= CountOfClusters() < 65525
    }
  }

  /** A boot sector with a jump, the signature, a fixed medium, and the place of the volume on its disk. */
  predicate BootSectorAt(image: seq<Byte>, base: nat) {
    && base + 512 <= |image| && image[base + 510..base + 512] == [0x55, 0xAA]
    && image[base] == 0xEB && image[base + 2] == 0x90
    && image[base + 21] == 0xF8 && Field(image, base + 28, 4) * 512 == base
    && 0 < Field(image, base + 24, 2) <= 63 && 0 < Field(image, base + 26, 2) <= 255
  }

  function Mount(image: seq<Byte>, base: nat): Option<Volume> {
    if !BootSectorAt(image, base) then None
    else
      var sectors16 := Field(image, base + 19, 2);
      var v := Volume(base, Field(image, base + 11, 2), image[base + 13], Field(image, base + 14, 2), image[base + 16],
                      Field(image, base + 17, 2), if sectors16 != 0 then sectors16 else Field(image, base + 32, 4),
                      Field(image, base + 22, 2), image[base + 21]);
      if v.IsFat16() then Some(v) else None
  }

  /** The extended boot record of a first fixed drive: volume serial number, label and file system type. */
  datatype Label = Label(serial: nat, volume: seq<Byte>, fileSystem: seq<Byte>)

  function ReadLabel(image: seq<Byte>, base: nat): Option<Label> {
    if base + 512 > |image| || image[base + 36] != 0x80 || image[base + 37] != 0 || image[base + 38] != 0x29 then None
    else Some(Label(Field(image, base + 39, 4), image[base + 43..base + 54], image[base + 54..base + 62]))
  }

  /** Entry `cluster` of FAT copy `copy`. */
  function FatEntry(image: seq<Byte>, v: Volume, copy: nat, cluster: nat): Option<nat> {
    var bytes :- Take(image, v.base + Times(v.reserved + Times(copy, v.fatSectors), v.sectorBytes) + 2 * cluster, 2);
    Some(Unpack(bytes))
  }

  function ReadCluster(image: seq<Byte>, v: Volume, cluster: nat): Option<seq<Byte>>
    requires v.IsFat16() && cluster >= 2
  {
    Take(image, v.base + Times(v.FirstDataSector(), v.sectorBytes) + Times(cluster - 2, v.ClusterBytes()),
         v.ClusterBytes())
  }

  /** The bytes of a cluster chain; a bad cluster number, or more links than there are clusters, is an error. */
  function ReadChain(image: seq<Byte>, v: Volume, copy: nat, cluster: nat, budget: nat): Option<seq<Byte>>
    requires v.IsFat16()
    decreases budget
  {
    if budget == 0 || cluster < 2 || cluster >= v.CountOfClusters() + 2 then
      None
    else
      var bytes :- ReadCluster(image, v, cluster);
      var next :- FatEntry(image, v, copy, cluster);
      if next >= 0xFFF8 then
        Some(bytes)
      else
        var rest :- ReadChain(image, v, copy, next, budget - 1);
        Some(bytes + rest)
  }

  datatype DirEntry = DirEntry(attributes: Byte, cluster: nat, size: nat) {
    predicate IsDirectory() { attributes / 16 % 2 == 1 }
  }

  /** Scans 32-byte entries up to the end mark, passing over volume labels and long-name parts. */
  function Find(directory: seq<Byte>, name: seq<Byte>, at: nat): Option<DirEntry>
    decreases |directory| - at
  {
    if at + 32 > |directory| || directory[at] == 0 then
      None
    else if directory[at..at + 11] == name && directory[at + 11] / 8 % 2 == 0 then
      Some(DirEntry(directory[at + 11], Field(directory, at + 26, 2), Field(directory, at + 28, 4)))
    else
      Find(directory, name, at + 32)
  }

  const DOT := Ascii(".          ")
  const DOT_DOT := Ascii("..         ")
  const EFI := Ascii("EFI        ")
  const BOOT := Ascii("BOOT       ")
  const BOOT_FILE := Ascii("BOOTAA64EFI")

  /** `cluster` is 0 for the root directory. */
  datatype Directory = Directory(cluster: nat, bytes: seq<Byte>)

  /** A directory starts with an entry for itself and one for its parent. */
  predicate StartsWithDots(directory: Directory, parent: nat) {
    && |directory.bytes| >= 64
    && DotEntry(directory.bytes, 0, DOT, directory.cluster)
    && DotEntry(directory.bytes, 32, DOT_DOT, parent)
  }

  predicate DotEntry(directory: seq<Byte>, at: nat, name: seq<Byte>, cluster: nat)
    requires at + 32 <= |directory|
  {
    && directory[at..at + 11] == name && directory[at + 11] == 0x10
    && Field(directory, at + 26, 2) == cluster && Field(directory, at + 28, 4) == 0
  }

  function OpenDirectory(image: seq<Byte>, v: Volume, copy: nat, parent: Directory, name: seq<Byte>): Option<Directory>
    requires v.IsFat16()
  {
    var entry :- Find(parent.bytes, name, 0);
    if !entry.IsDirectory() then None
    else
      var bytes :- ReadChain(image, v, copy, entry.cluster, v.CountOfClusters());
      var found := Directory(entry.cluster, bytes);
      if StartsWithDots(found, parent.cluster) then Some(found) else None
  }

  function OpenFile(image: seq<Byte>, v: Volume, copy: nat, parent: Directory, name: seq<Byte>): Option<seq<Byte>>
    requires v.IsFat16()
  {
    var entry :- Find(parent.bytes, name, 0);
    if entry.IsDirectory() then None
    else
      var bytes :- ReadChain(image, v, copy, entry.cluster, v.CountOfClusters());
      if entry.size <= |bytes| then Some(bytes[..entry.size]) else None
  }

  /** The reserved entries: the medium, and a volume that was left clean and without errors. */
  predicate CleanFat(image: seq<Byte>, v: Volume, copy: nat) {
    && FatEntry(image, v, copy, 0) == Some(0xFF00 + v.media)
    && FatEntry(image, v, copy, 1).Some? && FatEntry(image, v, copy, 1).value >= 0xFFF8
  }

  function ReadRoot(image: seq<Byte>, v: Volume): Option<seq<Byte>>
    requires v.IsFat16()
  {
    Take(image, v.base + Times(v.reserved + Times(v.fats, v.fatSectors), v.sectorBytes), v.rootEntries * 32)
  }

  /** EFI/BOOT/BOOTAA64.EFI, through FAT copy `copy`. */
  function ReadBootFile(image: seq<Byte>, v: Volume, copy: nat): Option<seq<Byte>>
    requires v.IsFat16()
  {
    if !CleanFat(image, v, copy) then None
    else
      var root :- ReadRoot(image, v);
      var efi :- OpenDirectory(image, v, copy, Directory(0, root), EFI);
      var boot :- OpenDirectory(image, v, copy, efi, BOOT);
      OpenFile(image, v, copy, boot, BOOT_FILE)
  }

  // ---------- dates and times ----------

  /** Year, month and day. */
  function DateOf(word: nat): (nat, nat, nat) { (1980 + word / 512, word / 32 % 16, word % 32) }

  /** Hour, minute and second. */
  function TimeOf(word: nat): (nat, nat, nat) { (word / 2048, word / 32 % 64, 2 * (word % 32)) }

  datatype Stamps = Stamps(created: ((nat, nat, nat), (nat, nat, nat)), accessed: (nat, nat, nat),
                           written: ((nat, nat, nat), (nat, nat, nat)))

  function StampsOf(directory: seq<Byte>, at: nat): Stamps
    requires at + 32 <= |directory|
  {
    Stamps((DateOf(Field(directory, at + 16, 2)), TimeOf(Field(directory, at + 14, 2))),
           DateOf(Field(directory, at + 18, 2)),
           (DateOf(Field(directory, at + 24, 2)), TimeOf(Field(directory, at + 22, 2))))
  }
}

/** A firmware boot: a protective MBR before the first header, a valid GPT at `lba`, its first entry an EFI system
    partition, the removable-media path on it. */
module FirmwareReader {
  import opened Bytes
  import opened Results
  import opened MbrReader
  import opened GptReader
  import opened Fat16Reader

  /** C12A7328-F81F-11D2-BA4B-00A0C93EC93B in GUID byte order. */
  const EFI_SYSTEM_PARTITION: seq<Byte> :=
    [0x28, 0x73, 0x2a, 0xc1, 0x1f, 0xf8, 0xd2, 0x11, 0xba, 0x4b, 0x00, 0xa0, 0xc9, 0x3e, 0xc9, 0x3b]

  function BootFile(image: seq<Byte>, lba: nat, copy: nat, crc: Checksum): Option<seq<Byte>> {
    if !ValidHeader(image, lba, crc) || (lba == 1 && !Protective(image)) then None
    else
      var h := ParseHeader(image, lba * BLOCK);
      var entries :- EntryArray(image, h);
      var entry :- FirstEntry(entries);
      if h.entrySize < 128 || entry.kind != EFI_SYSTEM_PARTITION
         || !(h.firstUsable <= entry.first <= entry.last <= h.lastUsable) then None
      else
        var v :- Mount(image, entry.first * BLOCK);
        if v.sectors * v.sectorBytes > (entry.last + 1 - entry.first) * BLOCK || copy >= v.fats then None
        else ReadBootFile(image, v, copy)
  }
}
