/** scripts/build-bridgevm-pc-boot-media.py: the builder, buffer by buffer. */
module BootMedia {
  import opened Bytes
  import opened Results
  import opened GptReader
  import opened BootLayout
  import BootProof
  import MbrReader
  import FatGeometry
  import FirmwareReader

  datatype BuildError = NotPeImage | NotFat16 | DoesNotFit

  /** `b"PE\0\0"` somewhere in the first 4096 bytes. */
  predicate HasPeMark(application: seq<Byte>) {
    exists i :: 0 <= i && i + 4 <= |application| && i + 4 <= 4096 && PeMarkAt(application, i)
  }

  predicate PeMarkAt(application: seq<Byte>, i: int)
    requires 0 <= i && i + 4 <= |application|
  {
    application[i..i + 4] == [0x50, 0x45, 0, 0]
  }

  predicate IsPe(application: seq<Byte>) {
    |application| >= 2 && application[0] == 0x4D && application[1] == 0x5A && HasPeMark(application)
  }

  method FindPeMark(application: seq<Byte>) returns (found: bool)
    ensures found == HasPeMark(application)
  {
    var i := 0;
    while i + 4 <= |application| && i + 4 <= 4096
      invariant 0 <= i
      invariant forall k | 0 <= k < i && k + 4 <= |application| && k + 4 <= 4096 :: !PeMarkAt(application, k)
    {
      if application[i..i + 4] == [0x50, 0x45, 0, 0] {
        assert PeMarkAt(application, i);
        return true;
      }
      i := i + 1;
    }
    return false;
  }

  /** None is the ValueError for a name that is not eleven bytes. */
  method DirectoryEntry(name: seq<Byte>, attributes: Byte, cluster: nat, size: nat) returns (entry: Option<seq<Byte>>)
    requires cluster < Pow256(2) && size < Pow256(4)
    ensures entry.Some? <==> |name| == 11
    ensures entry.Some? ==> entry.value == EntryBytes(name, attributes, cluster, size)
  {
    if |name| != 11 {
      return None;
    }
    var buffer := Fill(32, EntryLog(name, attributes, cluster, size));
    return Some(buffer[..]);
  }

  method GptHeader(current: nat, backup: nat, entriesLba: nat, entriesCrc: Word32, crc: Checksum)
    returns (header: seq<Byte>)
    requires current < Pow256(8) && backup < Pow256(8) && entriesLba < Pow256(8)
    ensures header == Written(SECTOR, HeaderLog(current, backup, entriesLba, entriesCrc, crc))
  {
    ghost var fields := HeaderFieldsLog(current, backup, entriesLba, entriesCrc);
    var buffer := Fill(SECTOR, HeaderFieldsLog(current, backup, entriesLba, entriesCrc));
    ghost var log := Put(buffer, 16, Pack(4, crc(buffer[..92])), fields);
    return buffer[..];
  }

  /** The FAT while the first `done` links of the chain are stored. */
  ghost predicate PartialFat(fat: seq<Byte>, needed: nat, done: nat)
    requires 4 + needed <= 0xFFFF
  {
    |fat| == FAT_BYTES
    && forall k | 0 <= k < FAT_BYTES ::
         fat[k] == if k / 2 < 4 + done then FatByte(FatValue(k / 2, needed), k) else 0
  }

  method StoreWord(buffer: array<Byte>, at: nat, value: nat)
    requires at + 2 <= buffer.Length && value < 0x1_0000
    modifies buffer
    ensures buffer[..] == old(buffer[..])[at := value % 256][at + 1 := value / 256 % 256]
  {
    buffer[at] := value % 256;
    buffer[at + 1] := value / 256 % 256;
  }

  lemma StoresLink(before: seq<Byte>, needed: nat, i: nat)
    requires needed + 4 < CLUSTERS && i < needed && PartialFat(before, needed, i)
    ensures var at, v := (4 + i) * 2, FatValue(4 + i, needed);
            PartialFat(before[at := v % 256][at + 1 := v / 256 % 256], needed, i + 1)
  {
  }

  method FillFat(needed: nat) returns (fat: array<Byte>)
    requires needed + 4 < CLUSTERS
    ensures fresh(fat) && fat[..] == FatTable(needed)
  {
    fat := new Byte[FAT_BYTES](_ => 0);
    StoreWord(fat, 0, 0xFFF8);
    StoreWord(fat, 2, 0xFFFF);
    StoreWord(fat, 4, 0xFFFF);
    StoreWord(fat, 6, 0xFFFF);
    assert PartialFat(fat[..], needed, 0);
    for index := 0 to needed
      invariant PartialFat(fat[..], needed, index)
    {
      var cluster := 4 + index;
      StoresLink(fat[..], needed, index);
      StoreWord(fat, cluster * 2, if index + 1 == needed then 0xFFFF else cluster + 1);
    }
    assert fat[..] == FatTable(needed);
  }

  method BootSector(fatSectors: nat) returns (boot: seq<Byte>)
    requires fatSectors < Pow256(2)
    ensures boot == Written(SECTOR, BootSectorLog(fatSectors))
  {
    var buffer := Fill(SECTOR, BootSectorLog(fatSectors));
    return buffer[..];
  }

  method DirectoryCluster(dot: seq<Byte>, dots: seq<Byte>, third: seq<Byte>) returns (cluster: seq<Byte>)
    requires |dot| == |dots| == |third| == 32
    ensures cluster == Written(CLUSTER_BYTES, [Write(0, dot), Write(32, dots), Write(64, third)])
  {
    var buffer := Fill(CLUSTER_BYTES, [Write(0, dot), Write(32, dots), Write(64, third)]);
    return buffer[..];
  }

  lemma VolumeLogStarts(application: seq<Byte>, log: seq<Write>)
    requires FitsVolume(|application|)
    ensures log + [Write(PARTITION, Written(SECTOR, BootSectorLog(FAT_SECTORS)))] + VolumeLog(application)[1..]
            == log + VolumeLog(application)
  {
  }

  method BuildFat(image: array<Byte>, application: seq<Byte>, ghost log: seq<Write>) returns (error: Option<BuildError>)
    requires image.Length == IMAGE_BYTES && Records(log, image[..])
    modifies image
    ensures error.None? <==> FitsVolume(|application|)
    ensures error.Some? ==> error.value == DoesNotFit
    ensures error.None? ==> Records(log + VolumeLog(application), image[..])
  {
    GeometryOfPartition();
    var fatSectors, rootSectors, clusterCount := FatGeometry.Geometry(PARTITION_END - PARTITION_START + 1);
    if !(4085 <= clusterCount < 65525) {
      return Some(NotFat16);
    }
    var boot := BootSector(fatSectors);
    ghost var after := Put(image, PARTITION, boot, log);
    var needed := (|application| + CLUSTER_BYTES - 1) / CLUSTER_BYTES;
    if needed == 0 || needed + 4 >= clusterCount {
      return Some(DoesNotFit);
    }
    after := PutFiles(image, application, after);
    VolumeLogStarts(application, log);
    return None;
  }

  /** The FATs, the root entry, the two directories and the application. */
  method PutFiles(image: array<Byte>, application: seq<Byte>, ghost log: seq<Write>) returns (ghost after: seq<Write>)
    requires image.Length == IMAGE_BYTES && Records(log, image[..]) && FitsVolume(|application|)
    modifies image
    ensures after == log + VolumeLog(application)[1..] && Records(after, image[..])
  {
    var fat := FillFat(Needed(|application|));
    var root := DirectoryEntry(Ascii("EFI        "), 0x10, 2, 0);
    var efi := EfiCluster();
    var bootDir := BootCluster(|application|);
    var writes := VolumeTail(fat[..], root.value, efi, bootDir, application);
    assert writes == VolumeLog(application)[1..];
    after := PutAll(image, writes, log);
  }

  method EfiCluster() returns (cluster: seq<Byte>)
    ensures cluster == EfiBytes()
  {
    var dot := DirectoryEntry(Ascii(".          "), 0x10, 2, 0);
    var dots := DirectoryEntry(Ascii("..         "), 0x10, 0, 0);
    var next := DirectoryEntry(Ascii("BOOT       "), 0x10, 3, 0);
    cluster := DirectoryCluster(dot.value, dots.value, next.value);
  }

  method BootCluster(size: nat) returns (cluster: seq<Byte>)
    requires size < Pow256(4)
    ensures cluster == BootBytes(size)
  {
    var dot := DirectoryEntry(Ascii(".          "), 0x10, 3, 0);
    var dots := DirectoryEntry(Ascii("..         "), 0x10, 2, 0);
    var file := DirectoryEntry(Ascii("BOOTAA64EFI"), 0x20, 4, size);
    cluster := DirectoryCluster(dot.value, dots.value, file.value);
  }

  method EntryArray() returns (entries: seq<Byte>)
    ensures entries == EntryTable()
  {
    var buffer := Fill(128 * 128, EntriesLog());
    return buffer[..];
  }

  method BuildGpt(crc: Checksum) returns (image: array<Byte>)
    ensures fresh(image) && image.Length == IMAGE_BYTES && Records(GptLog(crc), image[..])
  {
    var entries := EntryArray();
    var entriesCrc := crc(entries);
    var primary := GptHeader(1, SECTORS - 1, 2, entriesCrc, crc);
    var backup := GptHeader(SECTORS - 1, 1, SECTORS - 33, entriesCrc, crc);
    image := Fill(IMAGE_BYTES, GptWrites(ProtectiveRecord(), entries, primary, backup));
  }

  /** Accepts exactly the PE images that fit; firmware reads an accepted one back from the result, whichever
      valid header and whichever FAT it starts from. */
  method Build(application: seq<Byte>, crc: Checksum) returns (result: Result<seq<Byte>, BuildError>)
    ensures result.Ok? <==> IsPe(application) && FitsVolume(|application|)
    ensures result.Err? ==> result.error == if IsPe(application) then DoesNotFit else NotPeImage
    ensures result.Ok? ==> result.value == Image(application, crc)
    ensures result.Ok? ==> MbrReader.Protective(result.value)
    ensures result.Ok? ==> BootProof.GptAgrees(result.value, crc)
    ensures result.Ok? ==> forall lba, copy: nat | lba in {1, SECTORS - 1} && copy < 2 ::
                             FirmwareReader.BootFile(result.value, lba, copy, crc) == Some(application)
    ensures result.Ok? ==> forall lba | lba in {1, SECTORS - 1} :: BootProof.Identified(result.value, lba, crc)
    ensures result.Ok? ==> BootProof.FatsAgree(result.value, BootProof.VOLUME, (|application| + 2047) / 2048)
  {
    var marked := FindPeMark(application);
    if !(|application| >= 2 && application[0] == 0x4D && application[1] == 0x5A) || !marked {
      return Err(NotPeImage);
    }
    var image := BuildGpt(crc);
    var error := BuildFat(image, application, GptLog(crc));
    if error.Some? {
      return Err(error.value);
    }
    BootProof.ImageProtected(application, crc);
    BootProof.HeadersAgree(application, crc);
    forall lba, copy: nat | lba in {1, SECTORS - 1} && copy < 2
      ensures FirmwareReader.BootFile(Image(application, crc), lba, copy, crc) == Some(application)
    {
      BootProof.ImageBoots(application, crc, lba, copy);
    }
    BootProof.ImageFatsAgree(application, crc, Image(application, crc), BootProof.VOLUME);
    BootProof.ImageIdentified(application, crc, 1);
    BootProof.ImageIdentified(application, crc, SECTORS - 1);
    return Ok(image[..]);
  }
}
